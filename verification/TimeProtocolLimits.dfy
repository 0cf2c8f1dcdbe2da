/** How far the step limits of the time protocol can be stretched: exact conditions
    under which the look-ahead guard stays silent, and a run that hangs when a
    component oversteps the end time. */
module TimeProtocolLimits {
  import opened Samples
  import opened TimeProtocol
  import opened TimeProtocolProofs

  // ---- runs ----

  lemma {:induction false} ExtendRun(cfg: Config, s: State, run: seq<Action>, a: Action)
    requires Legal(cfg, s, run) && Enabled(cfg, Exec(cfg, s, run), a)
    ensures Legal(cfg, s, run + [a])
    ensures Exec(cfg, s, run + [a]) == Apply(cfg, Exec(cfg, s, run), a)
    decreases |run|
  {
    if run == [] {
      assert run + [a] == [a] && [a][1..] == [];
    } else {
      assert (run + [a])[0] == run[0] && (run + [a])[1..] == run[1..] + [a];
      ExtendRun(cfg, Apply(cfg, s, run[0]), run[1..], a);
    }
  }

  lemma ReachStep(cfg: Config, s: State, a: Action)
    requires Reachable(cfg, s) && Enabled(cfg, s, a)
    ensures Reachable(cfg, Apply(cfg, s, a))
  {
    var run :| Legal(cfg, Init(cfg), run) && Exec(cfg, Init(cfg), run) == s;
    ExtendRun(cfg, Init(cfg), run, a);
  }

  // ---- steps ----

  /** All delays are at least `d`, and no component takes a step longer than `h`; either
      all components take steps of one length, or none claims to. */
  ghost predicate Stepping(cfg: Config, d: real, h: real, exact: bool) {
    && cfg.Wired() && cfg.Paced()
    && (forall i :: 0 <= i < |cfg.delay| ==> d <= cfg.delay[i])
    && (forall c :: 0 <= c < |cfg.step| ==> 0.0 < cfg.step[c] <= h && cfg.equidistant[c] == exact)
  }

  /** In no run does a component ask for data it may not ask for. */
  ghost predicate NeverRefused(cfg: Config) {
    forall s, c: nat :: Reachable(cfg, s) ==> !Enabled(cfg, s, Refuse(c))
  }

  lemma WithinLimit(cfg: Config, d: real, h: real, exact: bool)
    requires 0.0 < d && Stepping(cfg, d, h, exact) && h <= if exact then d else d / 2.0
    ensures NeverRefused(cfg)
  {
    forall s, c: nat | Reachable(cfg, s)
      ensures !Enabled(cfg, s, Refuse(c))
    {
      if Running(cfg, s, c) {
        LookAheadSafety(cfg, s, c);
      }
    }
  }

  /** Two components joined by a delay `d`, of which the second does nothing. */
  function Pair(d: real, h: real, exact: bool, program: seq<Op>): Config {
    Config(0.0, 0.0, [0, 1], [1, 0], [d, d], [program, []], [h, h], [exact, exact])
  }

  /** A first step to `f`, too short to trigger a sending, and then a full step. */
  function ShortThenFull(f: real, h: real): seq<Op> {
    [SetMotion(0, f), GetForce(0, f + h)]
  }

  lemma ShortThenFullPaced(d: real, h: real, f: real)
    requires 0.0 < d && 0.0 < f <= h
    ensures Stepping(Pair(d, h, false, ShortThenFull(f, h)), d, h, false)
  {
    var cfg := Pair(d, h, false, ShortThenFull(f, h));
    assert cfg.LastSet(0, 0, 0) == 0.0;
    assert cfg.LastSet(0, 1, 0) == f;
  }

  lemma ShortThenFullRefused(d: real, h: real, f: real)
    requires 0.0 < d && 0.0 < f < d / 2.0 && d < f + h
    ensures !NeverRefused(Pair(d, h, false, ShortThenFull(f, h)))
  {
    var cfg := Pair(d, h, false, ShortThenFull(f, h));
    var s := Init(cfg);
    var a := Motion(0, Sample(f, 0.0, 0.0, 0.0));
    assert Legal(cfg, s, []) && Exec(cfg, s, []) == s;
    assert Enabled(cfg, s, a);
    ReachStep(cfg, s, a);
    assert Pending(cfg, Apply(cfg, s, a), 0) == GetForce(0, f + h);
    assert Enabled(cfg, Apply(cfg, s, a), Refuse(0));
  }

  lemma FullStepRefused(d: real, h: real)
    requires 0.0 < d < h
    ensures Stepping(Pair(d, h, true, [GetForce(0, h)]), d, h, true)
    ensures !NeverRefused(Pair(d, h, true, [GetForce(0, h)]))
  {
    var cfg := Pair(d, h, true, [GetForce(0, h)]);
    var s := Init(cfg);
    assert cfg.LastSet(0, 0, 0) == 0.0;
    assert Legal(cfg, s, []) && Exec(cfg, s, []) == s;
    assert Reachable(cfg, s);
    assert Pending(cfg, s, 0) == GetForce(0, h);
    assert Enabled(cfg, s, Refuse(0));
  }

  /** With steps of any length up to `h` and delays of at least `d`, no run of any model
      makes a component ask too far ahead exactly when `h` is at most half of `d`: the
      whole delay, which is handed to a component that claims exact steps, is too much for
      steps of varying length. */
  lemma VariableStepLimit(d: real, h: real)
    requires 0.0 < d && 0.0 < h
    ensures (forall cfg :: Stepping(cfg, d, h, false) ==> NeverRefused(cfg)) <==> h <= d / 2.0
  {
    if h <= d / 2.0 {
      forall cfg | Stepping(cfg, d, h, false)
        ensures NeverRefused(cfg)
      {
        WithinLimit(cfg, d, h, false);
      }
    } else {
      var low := if h < d then d - h else 0.0;
      var f := (low + d / 2.0) / 2.0;
      ShortThenFullPaced(d, h, f);
      ShortThenFullRefused(d, h, f);
    }
  }

  /** With steps of one length the limit is the whole delay, and no more. */
  lemma EqualStepLimit(d: real, h: real)
    requires 0.0 < d && 0.0 < h
    ensures (forall cfg :: Stepping(cfg, d, h, true) ==> NeverRefused(cfg)) <==> h <= d
  {
    if h <= d {
      forall cfg | Stepping(cfg, d, h, true)
        ensures NeverRefused(cfg)
      {
        WithinLimit(cfg, d, h, true);
      }
    } else {
      FullStepRefused(d, h);
    }
  }

  // ---- stepping past the end time ----

  /** Two components joined by a delay `d`. The first takes two exact steps of that
      length and so oversteps the end time by `o`; the second takes three shorter steps
      and sends only at the second of them. */
  ghost predicate Overstep(d: real, o: real) {
    0.0 < d && d / 2.0 < o < d
  }

  function Sending2(d: real, o: real): real {
    (2.5 * d - o) / 2.0
  }

  function Overstepping(d: real, o: real): Config {
    Config(0.0, 2.0 * d - o, [0, 1], [1, 0], [d, d], [FirstProgram(d), SecondProgram(d, o)],
           [d, d / 2.0], [true, false])
  }

  function FirstProgram(d: real): seq<Op> {
    [GetForce(0, d), SetMotion(0, d), GetForce(0, 2.0 * d), SetMotion(0, 2.0 * d)]
  }

  function SecondProgram(d: real, o: real): seq<Op> {
    [GetForce(1, Sending2(d, o) / 2.0), SetMotion(1, Sending2(d, o) / 2.0),
     GetForce(1, Sending2(d, o)), SetMotion(1, Sending2(d, o)),
     GetForce(1, 2.0 * d - o), SetMotion(1, 2.0 * d - o)]
  }

  lemma FirstIsPaced(d: real, o: real, k: nat)
    requires Overstep(d, o) && k < 4
    ensures Overstepping(d, o).Wired() && Overstepping(d, o).PacedCall(0, k, 0)
    ensures Overstepping(d, o).LastSet(0, 4, 0) == 2.0 * d
  {
    var cfg := Overstepping(d, o);
    assert cfg.LastSet(0, 0, 0) == 0.0;
    assert cfg.LastSet(0, 1, 0) == 0.0;
    assert cfg.LastSet(0, 2, 0) == d;
    assert cfg.LastSet(0, 3, 0) == d;
  }

  lemma SecondIsPaced(d: real, o: real, k: nat)
    requires Overstep(d, o) && k < 6
    ensures Overstepping(d, o).Wired() && Overstepping(d, o).PacedCall(1, k, 1)
    ensures Overstepping(d, o).LastSet(1, 6, 1) == 2.0 * d - o
  {
    var cfg := Overstepping(d, o);
    assert cfg.LastSet(1, 0, 1) == 0.0;
    assert cfg.LastSet(1, 1, 1) == 0.0;
    assert cfg.LastSet(1, 2, 1) == Sending2(d, o) / 2.0;
    assert cfg.LastSet(1, 3, 1) == Sending2(d, o) / 2.0;
    assert cfg.LastSet(1, 4, 1) == Sending2(d, o);
    assert cfg.LastSet(1, 5, 1) == Sending2(d, o);
  }

  /** All conditions of the deadlock theorem but the bound on the last call. */
  ghost predicate PacedToTheEnd(cfg: Config) {
    && cfg.Wired() && cfg.StepsWithinLimit() && cfg.Paced()
    && forall i :: 0 <= i < |cfg.owner| ==>
         cfg.endTime <= cfg.LastSet(cfg.owner[i], |cfg.program[cfg.owner[i]]|, i)
  }

  /** No call reaches further past the end time than `o`, and no delay is below `d`. */
  ghost predicate OverstepsAtMost(cfg: Config, d: real, o: real) {
    && (forall i :: 0 <= i < |cfg.delay| ==> d <= cfg.delay[i])
    && (forall c, k :: 0 <= c < |cfg.program| && 0 <= k < |cfg.program[c]| ==>
          cfg.program[c][k].time <= cfg.endTime + o)
  }

  lemma OversteppingPaced(d: real, o: real)
    requires Overstep(d, o)
    ensures Overstepping(d, o).Wired() && Overstepping(d, o).Paced()
  {
    var cfg := Overstepping(d, o);
    FirstIsPaced(d, o, 0);
    forall i, k | 0 <= i < |cfg.owner| && 0 <= k < |cfg.program[cfg.owner[i]]|
      ensures cfg.PacedCall(cfg.owner[i], k, i)
    {
      if i == 0 { FirstIsPaced(d, o, k); } else { SecondIsPaced(d, o, k); }
    }
  }

  lemma OversteppingAtMost(d: real, o: real)
    requires Overstep(d, o)
    ensures OverstepsAtMost(Overstepping(d, o), d, o)
  {
  }

  lemma OversteppingIsPaced(d: real, o: real)
    requires Overstep(d, o)
    ensures PacedToTheEnd(Overstepping(d, o))
    ensures OverstepsAtMost(Overstepping(d, o), d, o)
  {
    OversteppingPaced(d, o);
    OversteppingAtMost(d, o);
    FirstIsPaced(d, o, 0);
    SecondIsPaced(d, o, 0);
  }

  function At(time: real): Sample {
    Sample(time, 0.0, 0.0, 0.0)
  }

  /** The first interface after none, one, and one motion with the data of its peer. */
  function First(d: real, o: real, k: nat): Ifc {
    if k == 0 then Ifc(0.0, d, [], [], [], [])
    else if k == 1 then Ifc(d, d, [], [At(d)], [At(d)], [])
    else Ifc(d, Sending2(d, o) + d, [], [At(d)], [At(d)], Early(d, o))
  }

  /** The samples the second component sends, and those it sets. */
  function Early(d: real, o: real): seq<Sample> {
    [At(Sending2(d, o) / 2.0), At(Sending2(d, o))]
  }

  function All(d: real, o: real): seq<Sample> {
    [At(Sending2(d, o) / 2.0), At(Sending2(d, o)), At(2.0 * d - o)]
  }

  /** The second interface after none, one and two motions, with data, and at its end. */
  function Second(d: real, o: real, k: nat): Ifc {
    if k == 0 then Ifc(0.0, d, [], [], [], [])
    else if k == 1 then Ifc(0.0, d, [At(Sending2(d, o) / 2.0)], [At(Sending2(d, o) / 2.0)], [], [])
    else if k == 2 then Ifc(Sending2(d, o), d, [], Early(d, o), Early(d, o), [])
    else if k == 3 then Ifc(Sending2(d, o), 2.0 * d, [], Early(d, o), Early(d, o), [At(d)])
    else Ifc(Sending2(d, o), 2.0 * d, [At(2.0 * d - o)], All(d, o), Early(d, o), [At(d)])
  }

  /** Packets of the first and of the second component, addressed to interface `i`. */
  function FromFirst(d: real, i: nat): Packet {
    Packet(i, [At(d)])
  }

  function FromSecond(d: real, o: real, i: nat): Packet {
    Packet(i, Early(d, o))
  }

  function Moment(pc: (nat, nat), ifc: (Ifc, Ifc), up: (seq<Packet>, seq<Packet>), queue: seq<Packet>,
                  down: (seq<Packet>, seq<Packet>)): State
  {
    State([pc.0, pc.1], [ifc.0, ifc.1], [up.0, up.1], queue, [down.0, down.1])
  }

  /** The states the run passes through, and the choices that lead from each to the next. */
  function Run(d: real, o: real, k: nat): (State, Action) {
    var f := FromFirst(d, 0);
    var s := FromSecond(d, o, 1);
    var early := (First(d, o, 1), Second(d, o, 1));
    var sent := (First(d, o, 1), Second(d, o, 2));
    var fed := (First(d, o, 1), Second(d, o, 3));
    var done := (First(d, o, 1), Second(d, o, 4));
    if k == 0 then (Moment((0, 0), (First(d, o, 0), Second(d, o, 0)), ([], []), [], ([], [])), Return(0))
    else if k == 1 then (Moment((1, 0), (First(d, o, 0), Second(d, o, 0)), ([], []), [], ([], [])), Motion(0, At(d)))
    else if k == 2 then (Moment((2, 0), (First(d, o, 1), Second(d, o, 0)), ([f], []), [], ([], [])), Return(1))
    else if k == 3 then
      (Moment((2, 1), (First(d, o, 1), Second(d, o, 0)), ([f], []), [], ([], [])), Motion(1, At(Sending2(d, o) / 2.0)))
    else if k == 4 then (Moment((2, 2), early, ([f], []), [], ([], [])), Return(1))
    else if k == 5 then (Moment((2, 3), early, ([f], []), [], ([], [])), Motion(1, At(Sending2(d, o))))
    else if k == 6 then (Moment((2, 4), sent, ([f], [s]), [], ([], [])), Relay(0))
    else if k == 7 then (Moment((2, 4), sent, ([], [s]), [FromFirst(d, 1)], ([], [])), Write)
    else if k == 8 then (Moment((2, 4), sent, ([], [s]), [], ([], [FromFirst(d, 1)])), Receive(1))
    else if k == 9 then (Moment((2, 4), fed, ([], [s]), [], ([], [])), Return(1))
    else if k == 10 then (Moment((2, 5), fed, ([], [s]), [], ([], [])), Motion(1, At(2.0 * d - o)))
    else if k == 11 then (Moment((2, 6), done, ([], [s]), [], ([], [])), Relay(1))
    else if k == 12 then (Moment((2, 6), done, ([], []), [FromSecond(d, o, 0)], ([], [])), Write)
    else if k == 13 then (Moment((2, 6), done, ([], []), [], ([FromSecond(d, o, 0)], [])), Receive(0))
    else (Moment((2, 6), (First(d, o, 2), Second(d, o, 4)), ([], []), [], ([], [])), Receive(0))
  }

  ghost predicate LeadsOn(d: real, o: real, k: nat) {
    && Enabled(Overstepping(d, o), Run(d, o, k).0, Run(d, o, k).1)
    && Apply(Overstepping(d, o), Run(d, o, k).0, Run(d, o, k).1) == Run(d, o, k + 1).0
  }

  lemma ReturnSteps(d: real, o: real, k: nat)
    requires Overstep(d, o) && (k == 0 || k == 2 || k == 4 || k == 9)
    ensures LeadsOn(d, o, k)
  {
  }

  lemma Offers(d: real, o: real)
    requires Overstep(d, o)
    ensures Offer(First(d, o, 0), d, At(d)) == First(d, o, 1)
    ensures Offer(Second(d, o, 0), d, At(Sending2(d, o) / 2.0)) == Second(d, o, 1)
    ensures Offer(Second(d, o, 1), d, At(Sending2(d, o))) == Second(d, o, 2)
    ensures Offer(Second(d, o, 3), d, At(2.0 * d - o)) == Second(d, o, 4)
  {
    assert [] + ([] + [At(d)]) == [At(d)] == [] + [At(d)];
    assert [] + [At(Sending2(d, o) / 2.0)] == [At(Sending2(d, o) / 2.0)];
    assert [At(Sending2(d, o) / 2.0)] + [At(Sending2(d, o))] == Early(d, o) == [] + Early(d, o);
    assert Early(d, o) + [At(2.0 * d - o)] == All(d, o);
    assert [] + [At(2.0 * d - o)] == [At(2.0 * d - o)];
  }

  lemma MotionSteps(d: real, o: real, k: nat)
    requires Overstep(d, o) && (k == 1 || k == 3 || k == 5 || k == 10)
    ensures LeadsOn(d, o, k)
  {
    Offers(d, o);
    var c := Run(d, o, k).1.comp;
    var x := Run(d, o, k).1.sample;
    var f := Run(d, o, k).0.ifc[c];
    if Due(f, d, x.time) {
      assert Run(d, o, k).0.up[c] + [Packet(c, f.buffer + [x])] == Run(d, o, k + 1).0.up[c];
    } else {
      assert Run(d, o, k).0.up[c] + [] == Run(d, o, k + 1).0.up[c];
    }
  }

  lemma ReceiveSteps(d: real, o: real, k: nat)
    requires Overstep(d, o) && (k == 8 || k == 13)
    ensures LeadsOn(d, o, k)
  {
    assert [FromFirst(d, 1)][1..] == [] && [FromSecond(d, o, 0)][1..] == [];
    assert [] + [At(d)] == [At(d)] && [] + Early(d, o) == Early(d, o);
  }

  lemma StreamSteps(d: real, o: real, k: nat)
    requires Overstep(d, o) && (6 <= k <= 7 || 11 <= k <= 12)
    ensures LeadsOn(d, o, k)
  {
    assert [FromFirst(d, 0)][1..] == [FromFirst(d, 1)][1..] == [];
    assert [FromSecond(d, o, 1)][1..] == [FromSecond(d, o, 0)][1..] == [];
    assert [] + [FromFirst(d, 1)] == [FromFirst(d, 1)] && [] + [FromSecond(d, o, 0)] == [FromSecond(d, o, 0)];
  }

  lemma {:induction false} RunReaches(d: real, o: real, k: nat)
    requires Overstep(d, o) && k <= 14
    ensures Reachable(Overstepping(d, o), Run(d, o, k).0)
  {
    var cfg := Overstepping(d, o);
    if k == 0 {
      assert Init(cfg) == Run(d, o, 0).0;
      assert Legal(cfg, Init(cfg), []) && Exec(cfg, Init(cfg), []) == Init(cfg);
    } else {
      RunReaches(d, o, k - 1);
      if k == 1 || k == 3 || k == 5 || k == 10 {
        ReturnSteps(d, o, k - 1);
      } else if k == 2 || k == 4 || k == 6 || k == 11 {
        MotionSteps(d, o, k - 1);
      } else if k == 9 || k == 14 {
        ReceiveSteps(d, o, k - 1);
      } else {
        StreamSteps(d, o, k - 1);
      }
      ReachStep(cfg, Run(d, o, k - 1).0, Run(d, o, k - 1).1);
    }
  }

  lemma NobodyMoves(d: real, o: real, a: Action)
    requires Overstep(d, o)
    ensures !Enabled(Overstepping(d, o), Run(d, o, 14).0, a)
  {
    var s := Run(d, o, 14).0;
    assert Pending(Overstepping(d, o), s, 0) == GetForce(0, 2.0 * d) && Starved(Overstepping(d, o), s, 0);
    assert !Running(Overstepping(d, o), s, 1);
    match a
    case Return(c) =>
    case Refuse(c) =>
    case Receive(c) =>
    case Motion(c, x) =>
    case Relay(c) =>
    case Write =>
  }

  /** Nobody can move although somebody has not finished. */
  ghost predicate Stuck(cfg: Config, s: State) {
    !Done(cfg, s) && forall a :: !Enabled(cfg, s, a)
  }

  lemma EndsStuck(d: real, o: real)
    requires Overstep(d, o)
    ensures Stuck(Overstepping(d, o), Run(d, o, 14).0)
  {
    assert Running(Overstepping(d, o), Run(d, o, 14).0, 0);
    forall a ensures !Enabled(Overstepping(d, o), Run(d, o, 14).0, a) {
      NobodyMoves(d, o, a);
    }
  }

  /** A paced model none of whose runs can hang. */
  ghost predicate NeverStuck(cfg: Config) {
    forall s :: Reachable(cfg, s) ==> !Stuck(cfg, s)
  }

  lemma ShortOverstepIsSafe(cfg: Config, d: real, o: real)
    requires PacedToTheEnd(cfg) && OverstepsAtMost(cfg, d, o) && o <= d / 2.0
    ensures NeverStuck(cfg)
  {
    assert cfg.WellFormed();
    forall s | Reachable(cfg, s) ensures !Stuck(cfg, s) {
      if !Done(cfg, s) {
        DeadlockFree(cfg, s);
      }
    }
  }

  /** Models whose delays are at least `d` and whose calls overstep the end time by at
      most `o` never hang exactly when `o` is at most half of `d`: past that, the last
      samples of a finished peer may stay in its send buffer for ever. */
  lemma OverstepLimit(d: real, o: real)
    requires 0.0 < d
    ensures (forall cfg :: PacedToTheEnd(cfg) && OverstepsAtMost(cfg, d, o) ==> NeverStuck(cfg))
      <==> o <= d / 2.0
  {
    if o <= d / 2.0 {
      forall cfg | PacedToTheEnd(cfg) && OverstepsAtMost(cfg, d, o)
        ensures NeverStuck(cfg)
      {
        ShortOverstepIsSafe(cfg, d, o);
      }
    } else {
      var p := if o < d then o else 0.75 * d;
      var cfg := Overstepping(d, p);
      OversteppingIsPaced(d, p);
      assert OverstepsAtMost(cfg, d, o);
      RunReaches(d, p, 14);
      EndsStuck(d, p);
      assert !NeverStuck(cfg);
    }
  }
}
