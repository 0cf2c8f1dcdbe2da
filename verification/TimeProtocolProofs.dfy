/** Whole-run properties of the time protocol: delivery, look-ahead safety,
    freedom from deadlock, and completion. */
module TimeProtocolProofs {
  import opened Samples
  import opened TimeProtocol

  /** The samples that a list of packets carries for interface `i`, in order. */
  function Carried(ps: seq<Packet>, i: nat): seq<Sample> {
    if ps == [] then []
    else (if ps[0].ifc == i then ps[0].samples else []) + Carried(ps[1..], i)
  }

  lemma {:induction false} CarriedAppend(ps: seq<Packet>, qs: seq<Packet>, i: nat)
    ensures Carried(ps + qs, i) == Carried(ps, i) + Carried(qs, i)
  {
    if ps == [] {
      assert ps + qs == qs;
    } else {
      assert (ps + qs)[0] == ps[0] && (ps + qs)[1..] == ps[1..] + qs;
      CarriedAppend(ps[1..], qs, i);
    }
  }

  lemma CarriedOne(p: Packet, i: nat)
    ensures Carried([p], i) == if p.ifc == i then p.samples else []
  {
    assert [p][1..] == [];
  }

  lemma CarriedHead(ps: seq<Packet>, i: nat)
    requires ps != []
    ensures Carried(ps, i) == Carried([ps[0]], i) + Carried(ps[1..], i)
  {
    assert ps == [ps[0]] + ps[1..];
    CarriedAppend([ps[0]], ps[1..], i);
  }

  /** Samples under way to interface `i`, oldest first. */
  function InFlight(cfg: Config, s: State, i: nat): seq<Sample>
    requires i < |cfg.owner| && i < |cfg.linked| && cfg.linked[i] < |cfg.owner|
    requires cfg.owner[i] < |s.down| && cfg.owner[cfg.linked[i]] < |s.up|
  {
    Carried(s.down[cfg.owner[i]], i) + Carried(s.queue, i)
    + Carried(s.up[cfg.owner[cfg.linked[i]]], cfg.linked[i])
  }

  /** Nothing is lost, duplicated or reordered between the two ends of a connection. */
  ghost predicate Conserved(cfg: Config, s: State, i: nat)
    requires cfg.Wired() && Shaped(cfg, s) && i < |s.ifc|
  {
    s.ifc[cfg.linked[i]].sent == s.ifc[i].unpacked + InFlight(cfg, s, i)
  }

  /** The clock fields of an interface agree with its histories. */
  ghost predicate Consistent(f: Ifc, start: real, delay: real) {
    && f.offered == f.sent + f.buffer
    && f.lastSend == LastStamp(f.sent, start)
    && f.nextRecv == LastStamp(f.unpacked, start) + delay
    && StrictStamps(f.offered)
    && (f.offered != [] ==> start < f.offered[0].time)
  }

  /** ... and the history of offered samples agrees with the program executed so far. */
  ghost predicate Clocked(cfg: Config, s: State, i: nat)
    requires cfg.Wired() && Shaped(cfg, s) && i < |s.ifc|
  {
    var c := cfg.owner[i];
    && Consistent(s.ifc[i], cfg.startTime, cfg.delay[i])
    && cfg.LastSet(c, s.pc[c], i) == LastStamp(s.ifc[i].offered, cfg.startTime)
  }

  /** The last motion set is less than half a delay after the last sending. */
  ghost predicate Synchronised(cfg: Config, s: State, i: nat)
    requires cfg.Wired() && Shaped(cfg, s) && i < |s.ifc|
  {
    var c := cfg.owner[i];
    var last := cfg.LastSet(c, s.pc[c], i);
    && s.ifc[i].lastSend <= last < s.ifc[i].lastSend + cfg.delay[i] / 2.0
    && (cfg.equidistant[c] ==> last == s.ifc[i].lastSend || cfg.step[c] < cfg.delay[i] / 2.0)
  }

  ghost predicate Inv(cfg: Config, s: State) {
    && cfg.Wired() && Shaped(cfg, s)
    && (forall i :: 0 <= i < |s.ifc| ==> Conserved(cfg, s, i))
    && (forall i :: 0 <= i < |s.ifc| ==> Clocked(cfg, s, i))
    && (forall i :: 0 <= i < |s.ifc| ==> Synchronised(cfg, s, i))
  }

  lemma InitEstablishes(cfg: Config)
    requires cfg.Disciplined()
    ensures Inv(cfg, Init(cfg))
  {
  }

  // ---- preservation, one invariant at a time ----

  lemma ShapedStep(cfg: Config, s: State, a: Action)
    requires cfg.Wired() && Shaped(cfg, s) && Enabled(cfg, s, a)
    requires a.Motion? ==> cfg.owner[Pending(cfg, s, a.comp).ifc] == a.comp
    ensures Shaped(cfg, Apply(cfg, s, a))
  {
    match a
    case Return(c) =>
    case Refuse(c) =>
    case Receive(c) =>
    case Motion(c, x) => ShapedMotion(cfg, s, c, x);
    case Relay(c) => ShapedRelay(cfg, s, c);
    case Write => ShapedWrite(cfg, s);
  }

  lemma ShapedMotion(cfg: Config, s: State, c: nat, x: Sample)
    requires cfg.Wired() && Shaped(cfg, s) && Enabled(cfg, s, Motion(c, x))
    requires cfg.owner[Pending(cfg, s, c).ifc] == c
    ensures Shaped(cfg, Apply(cfg, s, Motion(c, x)))
  {
  }

  lemma ShapedRelay(cfg: Config, s: State, c: nat)
    requires cfg.Wired() && Shaped(cfg, s) && Enabled(cfg, s, Relay(c))
    ensures Shaped(cfg, Apply(cfg, s, Relay(c)))
  {
    assert Addressed(cfg, s.up[c][0], c);
  }

  lemma ShapedWrite(cfg: Config, s: State)
    requires cfg.Wired() && Shaped(cfg, s) && Enabled(cfg, s, Write)
    ensures Shaped(cfg, Apply(cfg, s, Write))
  {
    assert Addressed(cfg, s.queue[0], cfg.owner[s.queue[0].ifc]);
  }

  lemma ConservedStep(cfg: Config, s: State, a: Action, i: nat)
    requires cfg.Wired() && Shaped(cfg, s) && Enabled(cfg, s, a) && Shaped(cfg, Apply(cfg, s, a))
    requires a.Motion? ==> cfg.owner[Pending(cfg, s, a.comp).ifc] == a.comp
    requires i < |s.ifc| && Conserved(cfg, s, i)
    ensures Conserved(cfg, Apply(cfg, s, a), i)
  {
    match a
    case Return(c) =>
    case Refuse(c) =>
    case Receive(c) => ConservedReceive(cfg, s, c, i);
    case Motion(c, x) => ConservedMotion(cfg, s, c, x, i);
    case Relay(c) => ConservedRelay(cfg, s, c, i);
    case Write => ConservedWrite(cfg, s, i);
  }

  /** Moving the samples `h` from one place of the pipeline to the next one. */
  lemma Regroup(all: seq<Sample>, a: seq<Sample>, h: seq<Sample>, b: seq<Sample>, c: seq<Sample>, d: seq<Sample>)
    ensures all == a + ((h + b) + c + d) ==> all == (a + h) + (b + c + d)
    ensures all == a + (b + (h + c) + d) ==> all == a + ((b + h) + c + d)
    ensures all == a + (b + c + (h + d)) ==> all == a + (b + (c + h) + d)
    ensures all == a + (b + c + d) ==> all + h == a + (b + c + (d + h))
  {
    assert a + ((h + b) + c + d) == (a + h) + (b + c + d);
    assert a + (b + (h + c) + d) == a + ((b + h) + c + d);
    assert a + (b + c + (h + d)) == a + (b + (c + h) + d);
    assert a + (b + c + d) + h == a + (b + c + (d + h));
  }

  lemma ConservedReceive(cfg: Config, s: State, c: nat, i: nat)
    requires cfg.Wired() && Shaped(cfg, s) && Enabled(cfg, s, Receive(c))
    requires Shaped(cfg, Apply(cfg, s, Receive(c)))
    requires i < |s.ifc| && Conserved(cfg, s, i)
    ensures Conserved(cfg, Apply(cfg, s, Receive(c)), i)
  {
    var t := Apply(cfg, s, Receive(c));
    var p := s.down[c][0];
    var j := cfg.linked[i];
    assert Addressed(cfg, p, c);
    assert t.ifc[j].sent == s.ifc[j].sent;
    if p.ifc == i {
      CarriedHead(s.down[c], i);
      CarriedOne(p, i);
      Regroup(s.ifc[j].sent, s.ifc[i].unpacked, p.samples, Carried(s.down[c][1..], i),
              Carried(s.queue, i), Carried(s.up[cfg.owner[j]], j));
    } else {
      assert t.ifc[i].unpacked == s.ifc[i].unpacked;
      CarriedSkip(s.down[c], i);
      assert InFlight(cfg, t, i) == InFlight(cfg, s, i);
    }
  }

  lemma CarriedSkip(ps: seq<Packet>, i: nat)
    requires ps != [] && ps[0].ifc != i
    ensures Carried(ps[1..], i) == Carried(ps, i)
  {
    assert Carried(ps, i) == [] + Carried(ps[1..], i);
  }

  lemma CarriedPush(ps: seq<Packet>, q: Packet, i: nat)
    ensures Carried(ps + [q], i) == if q.ifc == i then Carried(ps, i) + q.samples else Carried(ps, i)
  {
    CarriedAppend(ps, [q], i);
    CarriedOne(q, i);
  }

  lemma ConservedMotion(cfg: Config, s: State, c: nat, x: Sample, i: nat)
    requires cfg.Wired() && Shaped(cfg, s) && Enabled(cfg, s, Motion(c, x))
    requires Shaped(cfg, Apply(cfg, s, Motion(c, x)))
    requires cfg.owner[Pending(cfg, s, c).ifc] == c
    requires i < |s.ifc| && Conserved(cfg, s, i)
    ensures Conserved(cfg, Apply(cfg, s, Motion(c, x)), i)
  {
    var t := Apply(cfg, s, Motion(c, x));
    var k := Pending(cfg, s, c).ifc;
    var j := cfg.linked[i];
    var f := s.ifc[k];
    assert t.ifc[i].unpacked == s.ifc[i].unpacked;
    if Due(f, cfg.delay[k], x.time) {
      CarriedPush(s.up[c], Packet(k, f.buffer + [x]), j);
    } else {
      assert s.up[c] + [] == s.up[c];
    }
    if j == k && Due(f, cfg.delay[k], x.time) {
      Regroup(f.sent, s.ifc[i].unpacked, f.buffer + [x], Carried(s.down[cfg.owner[i]], i),
              Carried(s.queue, i), Carried(s.up[c], j));
    } else {
      assert InFlight(cfg, t, i) == InFlight(cfg, s, i);
    }
  }

  lemma ConservedRelay(cfg: Config, s: State, c: nat, i: nat)
    requires cfg.Wired() && Shaped(cfg, s) && Enabled(cfg, s, Relay(c))
    requires Shaped(cfg, Apply(cfg, s, Relay(c)))
    requires i < |s.ifc| && Conserved(cfg, s, i)
    ensures Conserved(cfg, Apply(cfg, s, Relay(c)), i)
  {
    var t := Apply(cfg, s, Relay(c));
    var p := s.up[c][0];
    var j := cfg.linked[i];
    assert Addressed(cfg, p, c);
    var q := p.(ifc := cfg.linked[p.ifc]);
    assert q.ifc == i <==> p.ifc == j;
    CarriedPush(s.queue, q, i);
    if p.ifc == j {
      CarriedHead(s.up[c], j);
      CarriedOne(p, j);
      Regroup(s.ifc[j].sent, s.ifc[i].unpacked, p.samples, Carried(s.down[cfg.owner[i]], i),
              Carried(s.queue, i), Carried(s.up[c][1..], j));
    } else {
      CarriedSkip(s.up[c], j);
      assert InFlight(cfg, t, i) == InFlight(cfg, s, i);
    }
  }

  lemma ConservedWrite(cfg: Config, s: State, i: nat)
    requires cfg.Wired() && Shaped(cfg, s) && Enabled(cfg, s, Write)
    requires Shaped(cfg, Apply(cfg, s, Write))
    requires i < |s.ifc| && Conserved(cfg, s, i)
    ensures Conserved(cfg, Apply(cfg, s, Write), i)
  {
    var t := Apply(cfg, s, Write);
    var p := s.queue[0];
    var j := cfg.linked[i];
    var d := cfg.owner[p.ifc];
    CarriedPush(s.down[d], p, i);
    if p.ifc == i {
      CarriedHead(s.queue, i);
      CarriedOne(p, i);
      Regroup(s.ifc[j].sent, s.ifc[i].unpacked, p.samples, Carried(s.down[d], i),
              Carried(s.queue[1..], i), Carried(s.up[cfg.owner[j]], j));
    } else {
      CarriedSkip(s.queue, i);
      assert InFlight(cfg, t, i) == InFlight(cfg, s, i);
    }
  }

  /** The action sets motion on interface `i`. */
  predicate Moves(cfg: Config, s: State, a: Action, i: nat)
    requires Enabled(cfg, s, a)
  {
    a.Motion? && Pending(cfg, s, a.comp).ifc == i
  }

  /** What one action does to one interface and to its place in the program. */
  lemma IfcStep(cfg: Config, s: State, a: Action, i: nat)
    requires cfg.Wired() && Shaped(cfg, s) && Enabled(cfg, s, a) && Shaped(cfg, Apply(cfg, s, a))
    requires a.Motion? ==> cfg.owner[Pending(cfg, s, a.comp).ifc] == a.comp
    requires i < |s.ifc|
    ensures
      var c := cfg.owner[i];
      var t := Apply(cfg, s, a);
      && t.ifc[i] == (
           if Moves(cfg, s, a, i) then Offer(s.ifc[i], cfg.delay[i], a.sample)
           else if a.Receive? && s.down[a.comp][0].ifc == i then
             Unpack(s.ifc[i], cfg.delay[i], s.down[a.comp][0].samples)
           else s.ifc[i])
      && cfg.LastSet(c, t.pc[c], i) ==
           if Moves(cfg, s, a, i) then a.sample.time else cfg.LastSet(c, s.pc[c], i)
  {
  }

  lemma ClockedStep(cfg: Config, s: State, a: Action, i: nat)
    requires cfg.Wired() && Shaped(cfg, s) && Enabled(cfg, s, a) && Shaped(cfg, Apply(cfg, s, a))
    requires a.Motion? ==> cfg.owner[Pending(cfg, s, a.comp).ifc] == a.comp
    requires i < |s.ifc| && Clocked(cfg, s, i)
    requires Moves(cfg, s, a, i) ==> cfg.PacedCall(a.comp, s.pc[a.comp], i)
    ensures Clocked(cfg, Apply(cfg, s, a), i)
  {
    IfcStep(cfg, s, a, i);
    if Moves(cfg, s, a, i) {
      ConsistentOffer(s.ifc[i], cfg.startTime, cfg.delay[i], a.sample);
    } else if a.Receive? && s.down[a.comp][0].ifc == i {
      ConsistentUnpack(s.ifc[i], cfg.startTime, cfg.delay[i], s.down[a.comp][0].samples);
    }
  }

  lemma ConsistentUnpack(f: Ifc, start: real, delay: real, d: seq<Sample>)
    requires Consistent(f, start, delay) && d != []
    ensures Consistent(Unpack(f, delay, d), start, delay)
  {
  }

  lemma ConsistentOffer(f: Ifc, start: real, delay: real, x: Sample)
    requires Consistent(f, start, delay) && LastStamp(f.offered, start) < x.time
    ensures Consistent(Offer(f, delay, x), start, delay)
  {
    StampsAppend(f.offered, x, start);
    assert f.offered + [x] == f.sent + (f.buffer + [x]);
  }

  lemma StampsAppend(d: seq<Sample>, x: Sample, start: real)
    requires StrictStamps(d) && LastStamp(d, start) < x.time
    ensures StrictStamps(d + [x])
  {
  }

  lemma SynchronisedStep(cfg: Config, s: State, a: Action, i: nat)
    requires cfg.Wired() && Shaped(cfg, s) && Enabled(cfg, s, a) && Shaped(cfg, Apply(cfg, s, a))
    requires a.Motion? ==> cfg.owner[Pending(cfg, s, a.comp).ifc] == a.comp
    requires i < |s.ifc| && Synchronised(cfg, s, i)
    requires Moves(cfg, s, a, i) ==> cfg.PacedCall(a.comp, s.pc[a.comp], i)
    ensures Synchronised(cfg, Apply(cfg, s, a), i)
  {
    IfcStep(cfg, s, a, i);
  }

  lemma PendingMotion(cfg: Config, s: State, a: Action)
    requires cfg.Disciplined() && Shaped(cfg, s) && Enabled(cfg, s, a)
    ensures a.Motion? ==>
      && Pending(cfg, s, a.comp).ifc < |cfg.owner|
      && cfg.owner[Pending(cfg, s, a.comp).ifc] == a.comp
      && cfg.PacedCall(a.comp, s.pc[a.comp], Pending(cfg, s, a.comp).ifc)
  {
    if a.Motion? {
      var i := Pending(cfg, s, a.comp).ifc;
      assert i < |cfg.owner| && cfg.owner[i] == a.comp;
    }
  }

  /** Every step of the system keeps the whole invariant. */
  lemma InvStep(cfg: Config, s: State, a: Action)
    requires cfg.Disciplined() && Inv(cfg, s) && Enabled(cfg, s, a)
    ensures Inv(cfg, Apply(cfg, s, a))
  {
    PendingMotion(cfg, s, a);
    ShapedStep(cfg, s, a);
    forall i | 0 <= i < |s.ifc|
      ensures Conserved(cfg, Apply(cfg, s, a), i)
      ensures Clocked(cfg, Apply(cfg, s, a), i)
      ensures Synchronised(cfg, Apply(cfg, s, a), i)
    {
      ConservedStep(cfg, s, a, i);
      ClockedStep(cfg, s, a, i);
      SynchronisedStep(cfg, s, a, i);
    }
  }

  lemma {:induction false} InvRun(cfg: Config, s: State, run: seq<Action>)
    requires cfg.Disciplined() && Inv(cfg, s) && Legal(cfg, s, run)
    ensures Inv(cfg, Exec(cfg, s, run))
    decreases |run|
  {
    if run != [] {
      InvStep(cfg, s, run[0]);
      InvRun(cfg, Apply(cfg, s, run[0]), run[1..]);
    }
  }

  lemma InvReachable(cfg: Config, s: State)
    requires cfg.Disciplined() && Reachable(cfg, s)
    ensures Inv(cfg, s)
  {
    var run :| Legal(cfg, Init(cfg), run) && Exec(cfg, Init(cfg), run) == s;
    InitEstablishes(cfg);
    InvRun(cfg, Init(cfg), run);
  }

  // ---- delivery ----

  /** At every reachable state, what an interface has received is a prefix of what
      was set on its peer: in order, without loss and without duplication. The rest
      is in transit or still waits in the send buffer of the peer. */
  lemma Delivery(cfg: Config, s: State, i: nat)
    requires cfg.Disciplined() && Reachable(cfg, s) && i < |s.ifc|
    ensures cfg.Wired() && Shaped(cfg, s)
    ensures
      var peer := s.ifc[cfg.linked[i]];
      && s.ifc[i].unpacked <= peer.offered
      && peer.offered == s.ifc[i].unpacked + InFlight(cfg, s, i) + peer.buffer
      && StrictStamps(s.ifc[i].unpacked)
  {
    InvReachable(cfg, s);
    var peer := s.ifc[cfg.linked[i]];
    assert Conserved(cfg, s, i) && Clocked(cfg, s, cfg.linked[i]);
    SplitHistory(s.ifc[i].unpacked, InFlight(cfg, s, i), peer.buffer, peer.sent, peer.offered);
  }

  lemma SplitHistory(unpacked: seq<Sample>, moving: seq<Sample>, buffer: seq<Sample>, sent: seq<Sample>,
                     offered: seq<Sample>)
    requires sent == unpacked + moving && offered == sent + buffer && StrictStamps(offered)
    ensures unpacked <= offered && offered == unpacked + moving + buffer && StrictStamps(unpacked)
  {
    assert offered[..|unpacked|] == unpacked;
    forall i, j | 0 <= i < j < |unpacked|
      ensures unpacked[i].time < unpacked[j].time
    {
      assert unpacked[i] == offered[i] && unpacked[j] == offered[j];
    }
  }

  // ---- look-ahead safety ----

  /** A pending call never reaches further than one delay past the last sending of
      any interface of its component. */
  lemma CallWithinLookAhead(cfg: Config, s: State, i: nat)
    requires cfg.Disciplined() && Inv(cfg, s) && i < |s.ifc| && Running(cfg, s, cfg.owner[i])
    ensures Pending(cfg, s, cfg.owner[i]).time <= s.ifc[i].lastSend + cfg.delay[i]
  {
    var c := cfg.owner[i];
    assert cfg.PacedCall(c, s.pc[c], i);
    assert Synchronised(cfg, s, i);
  }

  /** The guard that gives up waiting for data never fires, motion never runs half a
      delay ahead of the last sending, and a force request that is answered either
      precedes all data of the peer or lies within the data received. */
  lemma LookAheadSafety(cfg: Config, s: State, c: nat)
    requires cfg.Disciplined() && Reachable(cfg, s) && Running(cfg, s, c)
    ensures !Enabled(cfg, s, Refuse(c))
    ensures Enabled(cfg, s, Return(c)) ==>
      var op := Pending(cfg, s, c);
      && op.ifc < |s.ifc| && |s.ifc| == |cfg.delay|
      && var d := s.ifc[op.ifc].unpacked;
         if d == [] then op.time <= cfg.startTime + cfg.delay[op.ifc]
         else op.time - cfg.delay[op.ifc] <= d[|d| - 1].time
    ensures forall i :: 0 <= i < |s.ifc| && |s.ifc| == |cfg.owner| == |cfg.delay| && cfg.owner[i] == c ==>
      cfg.LastSet(c, s.pc[c], i) < s.ifc[i].lastSend + cfg.delay[i] / 2.0
  {
    InvReachable(cfg, s);
    var op := Pending(cfg, s, c);
    assert op.ifc < |cfg.owner| && cfg.owner[op.ifc] == c;
    CallWithinLookAhead(cfg, s, op.ifc);
    assert Clocked(cfg, s, op.ifc);
    forall i | 0 <= i < |s.ifc| && cfg.owner[i] == c
      ensures cfg.LastSet(c, s.pc[c], i) < s.ifc[i].lastSend + cfg.delay[i] / 2.0
    {
      assert Synchronised(cfg, s, i);
    }
  }

  // ---- freedom from deadlock ----

  /** With nothing in transit, a starved component waits for a component that is
      still running and whose pending call is at a strictly earlier time. */
  lemma WaitsForEarlierCall(cfg: Config, s: State, c: nat)
    requires cfg.WellFormed() && Inv(cfg, s) && Running(cfg, s, c) && Starved(cfg, s, c)
    requires s.queue == [] && s.down[c] == []
    requires forall p :: 0 <= p < |s.up| ==> s.up[p] == []
    ensures Pending(cfg, s, c).ifc < |cfg.linked|
    ensures
      var peer := cfg.owner[cfg.linked[Pending(cfg, s, c).ifc]];
      Running(cfg, s, peer) && Pending(cfg, s, peer).time < Pending(cfg, s, c).time
  {
    var op := Pending(cfg, s, c);
    var i := op.ifc;
    assert cfg.owner[i] == c;
    var j := cfg.linked[i];
    var p := cfg.owner[j];
    assert Conserved(cfg, s, i) && Clocked(cfg, s, i) && Clocked(cfg, s, j);
    assert InFlight(cfg, s, i) == [];
    assert s.ifc[i].nextRecv == s.ifc[j].lastSend + cfg.delay[i];
    assert Synchronised(cfg, s, j);
    assert op.time <= cfg.endTime + cfg.delay[i] / 2.0;
    if Running(cfg, s, p) {
      CallWithinLookAhead(cfg, s, j);
    }
  }

  /** A running component with the earliest pending call among the first `n`. */
  lemma {:induction false} EarliestRunning(cfg: Config, s: State, n: nat) returns (best: nat)
    requires n <= |cfg.program| && exists c: nat :: c < n && Running(cfg, s, c)
    ensures best < n && Running(cfg, s, best)
    ensures forall c: nat :: c < n && Running(cfg, s, c) ==>
      Pending(cfg, s, best).time <= Pending(cfg, s, c).time
  {
    if exists c: nat :: c < n - 1 && Running(cfg, s, c) {
      best := EarliestRunning(cfg, s, n - 1);
      if Running(cfg, s, n - 1) && Pending(cfg, s, n - 1).time < Pending(cfg, s, best).time {
        best := n - 1;
      }
    } else {
      best := n - 1;
    }
  }

  /** As long as some component has not finished its program, somebody can move. */
  lemma DeadlockFree(cfg: Config, s: State)
    requires cfg.WellFormed() && Reachable(cfg, s) && !Done(cfg, s)
    ensures exists a :: Enabled(cfg, s, a)
  {
    InvReachable(cfg, s);
    if c :| 0 <= c < |s.up| && s.up[c] != [] {
      assert Addressed(cfg, s.up[c][0], c);
      assert Enabled(cfg, s, Relay(c));
    } else if s.queue != [] {
      assert Enabled(cfg, s, Write);
    } else {
      var c := EarliestRunning(cfg, s, |cfg.program|);
      var op := Pending(cfg, s, c);
      assert op.ifc < |cfg.owner| && cfg.owner[op.ifc] == c;
      if op.SetMotion? {
        assert Enabled(cfg, s, Motion(c, Sample(op.time, 0.0, 0.0, 0.0)));
      } else if !Starved(cfg, s, c) {
        assert Enabled(cfg, s, Return(c));
      } else if s.down[c] == [] {
        WaitsForEarlierCall(cfg, s, c);
        assert false;
      } else {
        CallWithinLookAhead(cfg, s, op.ifc);
        assert Addressed(cfg, s.down[c][0], c);
        assert Enabled(cfg, s, Receive(c));
      }
    }
  }

  // ---- completion ----

  /** The calls and packet moves still ahead: a call counts four, and a packet one
      for each stream it has yet to leave. */
  function Work(cfg: Config, s: State, c: nat): int
    requires c < |cfg.program| && c < |s.pc| && c < |s.up| && c < |s.down|
  {
    4 * (|cfg.program[c]| - s.pc[c]) + 3 * |s.up[c]| + |s.down[c]|
  }

  function TotalWork(cfg: Config, s: State, n: nat): int
    requires n <= |cfg.program| && n <= |s.pc| && n <= |s.up| && n <= |s.down|
  {
    if n == 0 then 2 * |s.queue| else TotalWork(cfg, s, n - 1) + Work(cfg, s, n - 1)
  }

  lemma {:induction false} TotalWorkChange(cfg: Config, s: State, t: State, n: nat, c: nat)
    requires n <= |cfg.program| && n <= |s.pc| && n <= |s.up| && n <= |s.down|
    requires n <= |t.pc| && n <= |t.up| && n <= |t.down|
    requires forall d: nat :: d < n && d != c ==> Work(cfg, t, d) == Work(cfg, s, d)
    ensures TotalWork(cfg, t, n) - TotalWork(cfg, s, n)
         == 2 * (|t.queue| - |s.queue|) + if c < n then Work(cfg, t, c) - Work(cfg, s, c) else 0
  {
    if n > 0 {
      TotalWorkChange(cfg, s, t, n - 1, c);
    }
  }

  lemma {:induction false} TotalWorkBounded(cfg: Config, s: State, n: nat)
    requires n <= |cfg.program| && n <= |s.pc| && n <= |s.up| && n <= |s.down|
    requires forall c: nat :: c < n ==> s.pc[c] <= |cfg.program[c]|
    ensures 0 <= TotalWork(cfg, s, n)
  {
    if n > 0 {
      TotalWorkBounded(cfg, s, n - 1);
    }
  }

  /** The component whose streams or program an action touches. */
  function Touched(cfg: Config, s: State, a: Action): nat
    requires Enabled(cfg, s, a)
  {
    match a
    case Return(c) => c
    case Refuse(c) => c
    case Receive(c) => c
    case Motion(c, _) => c
    case Relay(c) => c
    case Write => cfg.owner[s.queue[0].ifc]
  }

  lemma WorkStep(cfg: Config, s: State, a: Action)
    requires cfg.Disciplined() && Shaped(cfg, s) && Enabled(cfg, s, a) && Shaped(cfg, Apply(cfg, s, a))
    ensures TotalWork(cfg, Apply(cfg, s, a), |cfg.program|) < TotalWork(cfg, s, |cfg.program|)
  {
    TotalWorkChange(cfg, s, Apply(cfg, s, a), |cfg.program|, Touched(cfg, s, a));
  }

  /** No run is longer than the work present at its start. */
  lemma {:induction false} RunsAreBounded(cfg: Config, s: State, run: seq<Action>)
    requires cfg.Disciplined() && Inv(cfg, s) && Legal(cfg, s, run)
    ensures |run| <= TotalWork(cfg, s, |cfg.program|)
    decreases |run|
  {
    if run == [] {
      TotalWorkBounded(cfg, s, |cfg.program|);
    } else {
      var t := Apply(cfg, s, run[0]);
      InvStep(cfg, s, run[0]);
      WorkStep(cfg, s, run[0]);
      RunsAreBounded(cfg, t, run[1..]);
    }
  }

  lemma {:induction false} InitialWork(cfg: Config, n: nat)
    requires cfg.Wired() && n <= |cfg.program|
    ensures TotalWork(cfg, Init(cfg), n) == 4 * CallCount(cfg, n)
  {
    if n > 0 {
      InitialWork(cfg, n - 1);
    }
  }

  /** The number of calls in the programs of the first `n` components. */
  function CallCount(cfg: Config, n: nat): nat
    requires n <= |cfg.program|
  {
    if n == 0 then 0 else CallCount(cfg, n - 1) + |cfg.program[n - 1]|
  }

  /** Every run has at most four steps per call, and a run that cannot be extended
      has completed every program, whatever the scheduler chose. */
  lemma Completion(cfg: Config, run: seq<Action>)
    requires cfg.WellFormed() && Legal(cfg, Init(cfg), run)
    ensures |run| <= 4 * CallCount(cfg, |cfg.program|)
    ensures
      var s := Exec(cfg, Init(cfg), run);
      (forall a :: !Enabled(cfg, s, a)) ==>
        && Done(cfg, s)
        && (forall i :: 0 <= i < |s.ifc| ==> cfg.endTime <= LastStamp(s.ifc[i].offered, cfg.startTime))
  {
    InitEstablishes(cfg);
    RunsAreBounded(cfg, Init(cfg), run);
    InitialWork(cfg, |cfg.program|);
    var s := Exec(cfg, Init(cfg), run);
    assert Reachable(cfg, s);
    if forall a :: !Enabled(cfg, s, a) {
      if !Done(cfg, s) {
        DeadlockFree(cfg, s);
        assert false;
      }
      InvReachable(cfg, s);
      forall i | 0 <= i < |s.ifc|
        ensures cfg.endTime <= LastStamp(s.ifc[i].offered, cfg.startTime)
      {
        assert Clocked(cfg, s, i);
        assert !Running(cfg, s, cfg.owner[i]);
      }
    }
  }
}
