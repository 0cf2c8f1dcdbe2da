/** Energy conservation of the coupled system: two ends of a connection that run within the
    time protocol, with equal steps and whatever schedule, meet what the energy balance of
    a connection asks for. */
module ProtocolEnergy {
  import opened Samples
  import opened TimeProtocol
  import opened TimeProtocolProofs
  import opened WaveHistory
  import opened WaveWindows
  import opened WaveEnergy

  // ---- runs, last step first ----

  lemma {:induction false} LastStep(cfg: Config, s: State, run: seq<Action>)
    requires Legal(cfg, s, run) && run != []
    ensures
      var n := |run| - 1;
      && Legal(cfg, s, run[..n]) && Enabled(cfg, Exec(cfg, s, run[..n]), run[n])
      && Exec(cfg, s, run) == Apply(cfg, Exec(cfg, s, run[..n]), run[n])
    decreases |run|
  {
    var n := |run| - 1;
    if n > 0 {
      LastStep(cfg, Apply(cfg, s, run[0]), run[1..]);
      assert run[..n][0] == run[0] && run[..n][1..] == run[1..][..n - 1];
    }
  }

  /** The state before the last step of a run. */
  function Before(cfg: Config, run: seq<Action>): (s: State)
    requires run != [] && Legal(cfg, Init(cfg), run)
    ensures Legal(cfg, Init(cfg), run[..|run| - 1]) && s == Exec(cfg, Init(cfg), run[..|run| - 1])
    ensures Enabled(cfg, s, run[|run| - 1]) && Exec(cfg, Init(cfg), run) == Apply(cfg, s, run[|run| - 1])
  {
    LastStep(cfg, Init(cfg), run);
    Exec(cfg, Init(cfg), run[..|run| - 1])
  }

  lemma BeforeKeeps(cfg: Config, run: seq<Action>)
    requires cfg.Disciplined() && run != [] && Legal(cfg, Init(cfg), run)
    ensures Reachable(cfg, Before(cfg, run)) && Inv(cfg, Before(cfg, run)) && Inv(cfg, Exec(cfg, Init(cfg), run))
  {
    assert Reachable(cfg, Before(cfg, run));
    assert Reachable(cfg, Exec(cfg, Init(cfg), run));
    InvReachable(cfg, Before(cfg, run));
    InvReachable(cfg, Exec(cfg, Init(cfg), run));
  }

  // ---- what an interface set, and what it knew ----

  /** The samples that interface `i` set in a run, and how many it had received each time. */
  function Trace(cfg: Config, run: seq<Action>, i: nat): End
    requires Legal(cfg, Init(cfg), run) && i < |cfg.delay|
    decreases |run|
  {
    if run == [] then End([], [])
    else
      var s, a := Before(cfg, run), run[|run| - 1];
      var e := Trace(cfg, run[..|run| - 1], i);
      if Moves(cfg, s, a, i) && i < |s.ifc| then End(e.samples + [a.sample], e.received + [|s.ifc[i].unpacked|]) else e
  }

  /** Every sample that interface `i` set carries the wave that the interface computes from
      what it has received by then. */
  ghost predicate Honest(cfg: Config, run: seq<Action>, i: nat, p: Params, init: Initial)
    requires Legal(cfg, Init(cfg), run)
    decreases |run|
  {
    run == [] ||
    (var s, a := Before(cfg, run), run[|run| - 1];
     && Honest(cfg, run[..|run| - 1], i, p, init)
     && (Moves(cfg, s, a, i) && i < |s.ifc| ==> Computed(p, init, a.sample, s.ifc[i].unpacked)))
  }

  ghost predicate Computed(p: Params, init: Initial, x: Sample, known: seq<Sample>) {
    StrictStamps(known) && x.wave == OutgoingWave(p, init, x.velocity, Answer(p, known, [], RequestAt(p, x.time)))
  }

  // ---- equal steps ----

  ghost predicate AskedBefore(cfg: Config, c: nat, k: nat, i: nat, t: real)
    requires c < |cfg.program| && k <= |cfg.program[c]|
  {
    exists m :: 0 <= m < k && cfg.program[c][m] == GetForce(i, t)
  }

  /** The force at each time is asked for before motion is set there. */
  ghost predicate AsksFirst(cfg: Config, i: nat)
    requires cfg.Wired() && i < |cfg.owner|
  {
    var c := cfg.owner[i];
    forall k, t :: 0 <= k < |cfg.program[c]| && cfg.program[c][k] == SetMotion(i, t) ==> AskedBefore(cfg, c, k, i, t)
  }

  /** The component of interface `i` takes steps of length `h`, and asks for the force first. */
  ghost predicate EqualSteps(cfg: Config, i: nat, h: real)
    requires cfg.Wired() && i < |cfg.owner|
  {
    cfg.equidistant[cfg.owner[i]] && cfg.step[cfg.owner[i]] == h && AsksFirst(cfg, i)
  }

  /** The stamps of the samples set are those of the steps. */
  ghost predicate InStep(start: real, h: real, d: seq<Sample>) {
    forall k :: 0 <= k < |d| ==> d[k].time == StepTime(start, h, k)
  }

  lemma NextStamp(start: real, h: real, d: seq<Sample>)
    requires InStep(start, h, d)
    ensures LastStamp(d, start) + h == StepTime(start, h, |d|)
  {
  }

  lemma OfferedStep(cfg: Config, s: State, a: Action, i: nat, h: real)
    requires cfg.Disciplined() && Inv(cfg, s) && Enabled(cfg, s, a) && i < |cfg.owner| && EqualSteps(cfg, i, h)
    requires InStep(cfg.startTime, h, s.ifc[i].offered)
    ensures i < |Apply(cfg, s, a).ifc| && InStep(cfg.startTime, h, Apply(cfg, s, a).ifc[i].offered)
  {
    PendingMotion(cfg, s, a);
    ShapedStep(cfg, s, a);
    IfcStep(cfg, s, a, i);
    if Moves(cfg, s, a, i) {
      assert Clocked(cfg, s, i);
      NextStamp(cfg.startTime, h, s.ifc[i].offered);
    }
  }

  lemma {:induction false} OfferedInStep(cfg: Config, run: seq<Action>, i: nat, h: real)
    requires cfg.Disciplined() && Legal(cfg, Init(cfg), run) && i < |cfg.owner| && EqualSteps(cfg, i, h)
    ensures i < |Exec(cfg, Init(cfg), run).ifc|
    ensures InStep(cfg.startTime, h, Exec(cfg, Init(cfg), run).ifc[i].offered)
    decreases |run|
  {
    if run != [] {
      var s, a := Before(cfg, run), run[|run| - 1];
      OfferedInStep(cfg, run[..|run| - 1], i, h);
      BeforeKeeps(cfg, run);
      OfferedStep(cfg, s, a, i, h);
    }
  }

  // ---- answered requests stay covered ----

  /** Every force request answered so far lies within one delay of the data. */
  ghost predicate Covered(cfg: Config, s: State, i: nat)
    requires cfg.Wired() && Shaped(cfg, s) && i < |s.ifc|
  {
    var c := cfg.owner[i];
    forall m, t :: 0 <= m < s.pc[c] && cfg.program[c][m] == GetForce(i, t) ==> t <= s.ifc[i].nextRecv
  }

  lemma ReceivingCoversMore(cfg: Config, s: State, a: Action, i: nat)
    requires cfg.Disciplined() && Inv(cfg, s) && Enabled(cfg, s, a) && Inv(cfg, Apply(cfg, s, a)) && i < |s.ifc|
    requires a.Motion? ==> cfg.owner[Pending(cfg, s, a.comp).ifc] == a.comp
    requires StrictStamps(Apply(cfg, s, a).ifc[i].unpacked)
    requires forall x :: x in Apply(cfg, s, a).ifc[i].unpacked ==> cfg.startTime < x.time
    ensures s.ifc[i].nextRecv <= Apply(cfg, s, a).ifc[i].nextRecv
  {
    var t := Apply(cfg, s, a);
    assert Clocked(cfg, s, i) && Clocked(cfg, t, i);
    IfcStep(cfg, s, a, i);
    var d, e := s.ifc[i].unpacked, t.ifc[i].unpacked;
    if d != [] {
      assert d[|d| - 1] == e[|d| - 1];
    } else if e != [] {
      assert e[|e| - 1] in e;
    }
  }

  lemma ReceivedAfterStart(cfg: Config, s: State, i: nat)
    requires cfg.Disciplined() && Reachable(cfg, s) && i < |s.ifc|
    ensures StrictStamps(s.ifc[i].unpacked)
    ensures forall x :: x in s.ifc[i].unpacked ==> cfg.startTime < x.time
  {
    Delivery(cfg, s, i);
    InvReachable(cfg, s);
    var offered := s.ifc[cfg.linked[i]].offered;
    assert Clocked(cfg, s, cfg.linked[i]);
    forall x | x in s.ifc[i].unpacked ensures cfg.startTime < x.time {
      var k :| 0 <= k < |s.ifc[i].unpacked| && s.ifc[i].unpacked[k] == x;
      assert offered[k] == x;
      if k > 0 {
        assert offered[0].time < offered[k].time;
      }
    }
  }

  lemma CoveredAfter(cfg: Config, s: State, a: Action, i: nat)
    requires cfg.Wired() && Shaped(cfg, s) && Enabled(cfg, s, a) && Shaped(cfg, Apply(cfg, s, a)) && !a.Refuse?
    requires i < |s.ifc| && Covered(cfg, s, i) && s.ifc[i].nextRecv <= Apply(cfg, s, a).ifc[i].nextRecv
    ensures Covered(cfg, Apply(cfg, s, a), i)
  {
    var c, t := cfg.owner[i], Apply(cfg, s, a);
    forall m, time | 0 <= m < t.pc[c] && cfg.program[c][m] == GetForce(i, time)
      ensures time <= t.ifc[i].nextRecv
    {
      if m == s.pc[c] {
        assert a == Return(c);
      }
    }
  }

  lemma CoveredStep(cfg: Config, s: State, a: Action, i: nat)
    requires cfg.Disciplined() && Reachable(cfg, s) && Inv(cfg, s) && Enabled(cfg, s, a)
    requires Reachable(cfg, Apply(cfg, s, a)) && Inv(cfg, Apply(cfg, s, a))
    requires i < |cfg.owner| && Covered(cfg, s, i)
    ensures Covered(cfg, Apply(cfg, s, a), i)
  {
    PendingMotion(cfg, s, a);
    ReceivedAfterStart(cfg, Apply(cfg, s, a), i);
    ReceivingCoversMore(cfg, s, a, i);
    if a.Refuse? {
      LookAheadSafety(cfg, s, a.comp);
    } else {
      CoveredAfter(cfg, s, a, i);
    }
  }

  lemma {:induction false} StaysCovered(cfg: Config, run: seq<Action>, i: nat)
    requires cfg.Disciplined() && Legal(cfg, Init(cfg), run) && i < |cfg.owner|
    ensures Inv(cfg, Exec(cfg, Init(cfg), run)) && Covered(cfg, Exec(cfg, Init(cfg), run), i)
    decreases |run|
  {
    if run == [] {
      InitEstablishes(cfg);
    } else {
      BeforeKeeps(cfg, run);
      StaysCovered(cfg, run[..|run| - 1], i);
      assert Reachable(cfg, Exec(cfg, Init(cfg), run));
      CoveredStep(cfg, Before(cfg, run), run[|run| - 1], i);
    }
  }

  /** When motion is set at the k-th step, the sample of n steps before has arrived. */
  lemma SampleHasArrived(cfg: Config, run: seq<Action>, i: nat, h: real, n: nat, k: nat)
    requires cfg.Disciplined() && Legal(cfg, Init(cfg), run) && i < |cfg.owner| && 0.0 < h
    requires EqualSteps(cfg, i, h) && EqualSteps(cfg, cfg.linked[i], h) && cfg.delay[i] == n as real * h && n <= k
    requires
      var s := Exec(cfg, Init(cfg), run);
      Running(cfg, s, cfg.owner[i]) && Pending(cfg, s, cfg.owner[i]) == SetMotion(i, StepTime(cfg.startTime, h, k))
    ensures i < |Exec(cfg, Init(cfg), run).ifc| && k - n < |Exec(cfg, Init(cfg), run).ifc[i].unpacked|
  {
    var s := Exec(cfg, Init(cfg), run);
    var c, t := cfg.owner[i], StepTime(cfg.startTime, h, k);
    StaysCovered(cfg, run, i);
    assert AskedBefore(cfg, c, s.pc[c], i, t);
    assert t <= s.ifc[i].nextRecv;
    assert Clocked(cfg, s, i);
    OfferedInStep(cfg, run, cfg.linked[i], h);
    assert Reachable(cfg, s);
    Delivery(cfg, s, i);
    EnoughArrived(cfg.startTime, h, n, k, s.ifc[i].unpacked, s.ifc[cfg.linked[i]].offered);
  }

  lemma EnoughArrived(start: real, h: real, n: nat, k: nat, d: seq<Sample>, offered: seq<Sample>)
    requires 0.0 < h && n <= k && d <= offered && InStep(start, h, offered)
    requires StepTime(start, h, k) <= LastStamp(d, start) + n as real * h
    ensures k - n < |d|
  {
    StepBack(start, h, n, k - n);
    if d != [] {
      assert d[|d| - 1] == offered[|d| - 1];
      LaterStep(start, h, k - n, |d| - 1);
    }
  }

  lemma LaterStep(start: real, h: real, j: nat, m: nat)
    requires 0.0 < h && StepTime(start, h, j) <= StepTime(start, h, m)
    ensures j <= m
  {
  }

  // ---- the trace meets the assumptions of the energy balance ----

  /** How much one end knew of the samples `peer` at each of its steps: from step `n` on the
      sample of `n` steps before. */
  ghost predicate Traced(e: End, peer: seq<Sample>, n: nat) {
    && |e.samples| == |e.received| && StrictStamps(peer)
    && (forall k :: 0 <= k < |e.samples| ==> e.received[k] <= |peer| && (n <= k ==> k - n < e.received[k]))
  }

  lemma TracedNext(e: End, peer: seq<Sample>, n: nat, x: Sample, m: nat)
    requires Traced(e, peer, n) && m <= |peer| && (n <= |e.samples| ==> |e.samples| - n < m)
    ensures Traced(End(e.samples + [x], e.received + [m]), peer, n)
  {
  }

  /** What one end sent is computed from what it knew of the samples `peer`. */
  ghost predicate Reflects(e: End, peer: seq<Sample>, p: Params, init: Initial) {
    |e.samples| == |e.received| && forall k :: 0 <= k < |e.samples| ==> ReflectsAt(e, peer, p, init, k)
  }

  ghost predicate ReflectsAt(e: End, peer: seq<Sample>, p: Params, init: Initial, k: nat)
    requires k < |e.samples| == |e.received|
  {
    e.received[k] <= |peer| && Computed(p, init, e.samples[k], peer[..e.received[k]])
  }

  lemma ReflectsMore(e: End, peer: seq<Sample>, more: seq<Sample>, p: Params, init: Initial)
    requires Reflects(e, peer, p, init) && peer <= more
    ensures Reflects(e, more, p, init)
  {
    forall k | 0 <= k < |e.samples| ensures ReflectsAt(e, more, p, init, k) {
      assert ReflectsAt(e, peer, p, init, k);
      assert more[..e.received[k]] == peer[..e.received[k]];
    }
  }

  lemma ReflectsNext(e: End, peer: seq<Sample>, p: Params, init: Initial, x: Sample, known: seq<Sample>)
    requires Reflects(e, peer, p, init) && known <= peer && Computed(p, init, x, known)
    ensures Reflects(End(e.samples + [x], e.received + [|known|]), peer, p, init)
  {
    var f := End(e.samples + [x], e.received + [|known|]);
    assert peer[..|known|] == known;
    forall k | 0 <= k < |f.samples| ensures ReflectsAt(f, peer, p, init, k) {
      if k < |e.samples| {
        assert ReflectsAt(e, peer, p, init, k);
      }
    }
  }

  lemma PeerGrows(cfg: Config, s: State, a: Action, j: nat)
    requires cfg.Disciplined() && Inv(cfg, s) && Enabled(cfg, s, a) && Inv(cfg, Apply(cfg, s, a)) && j < |s.ifc|
    ensures s.ifc[j].offered <= Apply(cfg, s, a).ifc[j].offered && StrictStamps(Apply(cfg, s, a).ifc[j].offered)
  {
    PendingMotion(cfg, s, a);
    IfcStep(cfg, s, a, j);
    assert Clocked(cfg, Apply(cfg, s, a), j);
  }

  /** The two ends of a line with equal steps of which the delay is a multiple. */
  ghost predicate EqualLine(cfg: Config, i: nat, h: real, n: nat) {
    && cfg.Disciplined() && i < |cfg.owner| && 0.0 < h && cfg.delay[i] == n as real * h
    && EqualSteps(cfg, i, h) && EqualSteps(cfg, cfg.linked[i], h)
  }

  /** What setting motion at interface `i` adds to its trace. */
  lemma MotionArrived(cfg: Config, run: seq<Action>, i: nat, h: real, n: nat)
    requires EqualLine(cfg, i, h, n) && run != [] && Legal(cfg, Init(cfg), run)
    requires Moves(cfg, Before(cfg, run), run[|run| - 1], i) && i < |Before(cfg, run).ifc|
    ensures
      var s := Before(cfg, run);
      && cfg.linked[i] < |s.ifc| && s.ifc[i].unpacked <= s.ifc[cfg.linked[i]].offered
      && Exec(cfg, Init(cfg), run).ifc[i].offered == s.ifc[i].offered + [run[|run| - 1].sample]
      && (n <= |s.ifc[i].offered| ==> |s.ifc[i].offered| - n < |s.ifc[i].unpacked|)
  {
    var s, a := Before(cfg, run), run[|run| - 1];
    BeforeKeeps(cfg, run);
    MotionAppends(cfg, s, a, i);
    Delivery(cfg, s, i);
    OfferedInStep(cfg, run, i, h);
    var k := |s.ifc[i].offered|;
    assert Exec(cfg, Init(cfg), run).ifc[i].offered[k] == a.sample;
    if n <= k {
      SampleHasArrived(cfg, run[..|run| - 1], i, h, n, k);
    }
  }

  lemma MotionAppends(cfg: Config, s: State, a: Action, i: nat)
    requires cfg.Disciplined() && Inv(cfg, s) && Enabled(cfg, s, a) && i < |s.ifc| && Moves(cfg, s, a, i)
    ensures i < |Apply(cfg, s, a).ifc| && Apply(cfg, s, a).ifc[i].offered == s.ifc[i].offered + [a.sample]
    ensures Running(cfg, s, cfg.owner[i]) && Pending(cfg, s, cfg.owner[i]) == SetMotion(i, a.sample.time)
  {
    PendingMotion(cfg, s, a);
  }

  /** The trace of an interface lists what it set, and each time enough has arrived. */
  lemma {:induction false} TraceHolds(cfg: Config, run: seq<Action>, i: nat, h: real, n: nat)
    requires EqualLine(cfg, i, h, n) && Legal(cfg, Init(cfg), run)
    ensures
      var s := Exec(cfg, Init(cfg), run);
      && i < |s.ifc| && cfg.linked[i] < |s.ifc| && Trace(cfg, run, i).samples == s.ifc[i].offered
      && Traced(Trace(cfg, run, i), s.ifc[cfg.linked[i]].offered, n)
    decreases |run|
  {
    if run != [] {
      var s, a := Before(cfg, run), run[|run| - 1];
      BeforeKeeps(cfg, run);
      TraceHolds(cfg, run[..|run| - 1], i, h, n);
      PeerGrows(cfg, s, a, cfg.linked[i]);
      if Moves(cfg, s, a, i) {
        MotionArrived(cfg, run, i, h, n);
        TracedNext(Trace(cfg, run[..|run| - 1], i), Exec(cfg, Init(cfg), run).ifc[cfg.linked[i]].offered, n,
                   a.sample, |s.ifc[i].unpacked|);
      } else {
        OfferedStays(cfg, s, a, i);
      }
    }
  }

  lemma OfferedStays(cfg: Config, s: State, a: Action, i: nat)
    requires cfg.Disciplined() && Inv(cfg, s) && Enabled(cfg, s, a) && Inv(cfg, Apply(cfg, s, a))
    requires i < |s.ifc| && !Moves(cfg, s, a, i)
    ensures Apply(cfg, s, a).ifc[i].offered == s.ifc[i].offered
  {
    PendingMotion(cfg, s, a);
    IfcStep(cfg, s, a, i);
  }

  /** When an interface has always sent what it computes, its trace says so. */
  lemma {:induction false} TraceReflects(cfg: Config, run: seq<Action>, i: nat, p: Params, init: Initial)
    requires cfg.Disciplined() && i < |cfg.owner| && Legal(cfg, Init(cfg), run) && Honest(cfg, run, i, p, init)
    ensures
      var s := Exec(cfg, Init(cfg), run);
      cfg.linked[i] < |s.ifc| && Reflects(Trace(cfg, run, i), s.ifc[cfg.linked[i]].offered, p, init)
    decreases |run|
  {
    if run != [] {
      var s, a := Before(cfg, run), run[|run| - 1];
      BeforeKeeps(cfg, run);
      TraceReflects(cfg, run[..|run| - 1], i, p, init);
      PeerGrows(cfg, s, a, cfg.linked[i]);
      Delivery(cfg, s, i);
      var e := Trace(cfg, run[..|run| - 1], i);
      ReflectsMore(e, s.ifc[cfg.linked[i]].offered, Exec(cfg, Init(cfg), run).ifc[cfg.linked[i]].offered, p, init);
      if Moves(cfg, s, a, i) {
        ReflectsNext(e, Exec(cfg, Init(cfg), run).ifc[cfg.linked[i]].offered, p, init, a.sample, s.ifc[i].unpacked);
      }
    }
  }

  /** An end of an equally stepped line within a run of the protocol produces its samples as
      the energy balance assumes. */
  lemma RunProduces(cfg: Config, run: seq<Action>, i: nat, h: real, n: nat, p: Params, init: Initial)
    requires EqualLine(cfg, i, h, n) && Legal(cfg, Init(cfg), run) && Honest(cfg, run, i, p, init)
    ensures Produces(p, init, cfg.startTime, h, n, Trace(cfg, run, i), Trace(cfg, run, cfg.linked[i]))
  {
    var j := cfg.linked[i];
    TraceHolds(cfg, run, i, h, n);
    TraceHolds(cfg, run, j, h, n);
    TraceReflects(cfg, run, i, p, init);
    OfferedInStep(cfg, run, i, h);
    OfferedInStep(cfg, run, j, h);
    var e, peer := Trace(cfg, run, i), Trace(cfg, run, j);
    forall k | 0 <= k < |e.samples|
      ensures e.received[k] <= |peer.samples| && (n <= k ==> k - n < e.received[k])
      ensures ProducesAt(p, init, e, peer, k)
    {
      assert ReflectsAt(e, peer.samples, p, init, k);
    }
  }

  /** In every run of the time protocol in which the two ends of a connection take equal
      steps, ask for the force before they move, and send what they compute from the data
      they have received, the work at both ends over any window of steps is the change of
      the energy in flight, whatever the schedule. */
  lemma ProtocolConservesEnergy(cfg: Config, run: seq<Action>, i: nat, h: real, n: nat, p: Params,
                                initA: Initial, initB: Initial, lo: nat, hi: nat)
    requires EqualLine(cfg, i, h, n) && Legal(cfg, Init(cfg), run)
    requires Honest(cfg, run, i, p, initA) && Honest(cfg, run, cfg.linked[i], p, initB)
    requires p.zf > 0.0 && p.alpha == 0.0 && p.delay == cfg.delay[i] && TIME_WITHOUT_DATA < cfg.startTime
    requires
      var a, b := Trace(cfg, run, i), Trace(cfg, run, cfg.linked[i]);
      0 < n <= lo <= hi <= |a.samples| && hi <= |b.samples|
    ensures
      var a, b := Trace(cfg, run, i), Trace(cfg, run, cfg.linked[i]);
      && Produces(p, initA, cfg.startTime, h, n, a, b) && Produces(p, initB, cfg.startTime, h, n, b, a)
      && var work := Sum(Powers(p, initA, cfg.startTime, h, n, a, b), lo, hi)
                   + Sum(Powers(p, initB, cfg.startTime, h, n, b, a), lo, hi);
      var ea, eb := Energies(p, a.samples), Energies(p, b.samples);
      var change := WaveEnergy.InFlight(ea, eb, n, lo) - WaveEnergy.InFlight(ea, eb, n, hi);
      work == if p.hydraulic then -change else change
  {
    var j := cfg.linked[i];
    RunProduces(cfg, run, i, h, n, p, initA);
    RunProduces(cfg, run, j, h, n, p, initB);
    EnergyConservation(p, initA, initB, cfg.startTime, h, n, Trace(cfg, run, i), Trace(cfg, run, j), lo, hi);
  }
}
