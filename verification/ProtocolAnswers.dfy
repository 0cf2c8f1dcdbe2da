/** The answers that interfaces give within the time protocol: in every run they are those of
    the full histories, and division by zero is all that can go wrong. */
module ProtocolAnswers {
  import opened Samples
  import opened TimeProtocol
  import opened TimeProtocolProofs
  import opened ProtocolEnergy
  import opened WaveHistory
  import opened WaveWindows
  import opened WaveRuns
  import opened WaveDivision

  // ---- a run as one of its interfaces sees it ----

  /** What a step of the protocol means for interface `i`. */
  function EventsAt(cfg: Config, s: State, a: Action, i: nat): (r: seq<Event>)
    requires Enabled(cfg, s, a)
    ensures |r| <= 1
  {
    if Moves(cfg, s, a, i) then [Moved(a.sample.time)]
    else if a.Receive? && s.down[a.comp][0].ifc == i then [Arrived(s.down[a.comp][0].samples)]
    else if a.Return? && Pending(cfg, s, a.comp).ifc == i then [Asked(Pending(cfg, s, a.comp).time)]
    else []
  }

  function EventsOf(cfg: Config, run: seq<Action>, i: nat): seq<Event>
    requires Legal(cfg, Init(cfg), run)
    decreases |run|
  {
    if run == [] then []
    else
      var s := Before(cfg, run);
      EventsOf(cfg, run[..|run| - 1], i) + EventsAt(cfg, s, run[|run| - 1], i)
  }

  /** No call among the events divides by zero when it is its turn. */
  ghost predicate NeverDivides(p: Params, h: History, events: seq<Event>) {
    forall k :: 0 <= k < |events| && Run(p, h, events[..k]) && !events[k].Arrived? ==>
      !Dividing(p, Final(p, h, events[..k]), events[k].time)
  }

  lemma {:induction false} RunThen(p: Params, h: History, events: seq<Event>, e: Event)
    requires Run(p, h, events) && Possible(p, Final(p, h, events), e)
    ensures Run(p, h, events + [e]) && Final(p, h, events + [e]) == After(p, Final(p, h, events), e)
    decreases |events|
  {
    if events == [] {
      assert events + [e] == [e] && [e][1..] == [];
    } else {
      RunThen(p, After(p, h, events[0]), events[1..], e);
      assert (events + [e])[0] == events[0] && (events + [e])[1..] == events[1..] + [e];
    }
  }

  /** The model and the parameters of its interface `i`. With damping, the force at each time
      is asked for before motion is set there. */
  ghost predicate Suits(cfg: Config, i: nat, p: Params) {
    && cfg.Disciplined() && i < |cfg.owner| && p.delay == cfg.delay[i] && (p.alpha > 0.0 ==> AsksFirst(cfg, i))
    && TIME_WITHOUT_DATA < cfg.startTime - p.delay
  }

  /** What matters of an interface for its next call: the samples received and the time of
      the last motion. */
  datatype View = View(received: seq<Sample>, last: real)

  function ViewOf(cfg: Config, s: State, i: nat): View {
    if i < |s.ifc| && i < |cfg.owner| && cfg.owner[i] < |s.pc| && cfg.owner[i] < |cfg.program|
      && s.pc[cfg.owner[i]] <= |cfg.program[cfg.owner[i]]|
    then View(s.ifc[i].unpacked, cfg.LastSet(cfg.owner[i], s.pc[cfg.owner[i]], i))
    else View([], cfg.startTime)
  }

  function Seen(h: History): View {
    View(h.Received(), h.clock)
  }

  function Next(v: View, e: Event): View {
    match e
    case Arrived(samples) => v.(received := v.received + samples)
    case Asked(_) => v
    case Moved(time) => v.(last := time)
  }

  /** The event may happen to an interface, apart from division by zero. */
  ghost predicate Fits(p: Params, v: View, e: Event) {
    match e
    case Arrived(samples) => StrictStamps(v.received + samples)
    case Asked(time) => Timely(p, v, time)
    case Moved(time) => v.last < time && Timely(p, v, time)
  }

  ghost predicate Timely(p: Params, v: View, time: real) {
    && v.last <= time <= v.last + DampDelay(p.delay)
    && (p.alpha > 0.0 ==> WithinData(p, v.received, time))
  }

  /** Such an event keeps history and view together. */
  lemma HistoryStep(p: Params, h: History, e: Event)
    requires Kept(p, h) && Fits(p, Seen(h), e) && (!e.Arrived? ==> !Dividing(p, h, e.time))
    ensures Possible(p, h, e) && Seen(After(p, h, e)) == Next(Seen(h), e)
  {
    match e
    case Arrived(samples) => HoldsArrived(p, h, samples);
    case Asked(time) =>
    case Moved(time) =>
      AsksGrounded(p, h, time);
      HoldsMoved(p, h, time);
  }

  // ---- every call is one that the windows are kept for ----

  /** A call of the component of `i` lies within one delay of its last motion. */
  lemma CallPaced(cfg: Config, s: State, i: nat)
    requires cfg.Disciplined() && Inv(cfg, s) && i < |s.ifc| && Running(cfg, s, cfg.owner[i])
    ensures
      var c := cfg.owner[i];
      var last := cfg.LastSet(c, s.pc[c], i);
      && last <= Pending(cfg, s, c).time <= last + cfg.delay[i]
      && (Pending(cfg, s, c) == SetMotion(i, Pending(cfg, s, c).time) ==> last < Pending(cfg, s, c).time)
  {
    assert cfg.PacedCall(cfg.owner[i], s.pc[cfg.owner[i]], i);
  }

  /** With damping, a call at `i` that is answered asks for nothing beyond the data received. */
  lemma CallCovered(cfg: Config, run: seq<Action>, a: Action, i: nat, p: Params)
    requires Suits(cfg, i, p) && Legal(cfg, Init(cfg), run) && Enabled(cfg, Exec(cfg, Init(cfg), run), a)
    requires
      var s := Exec(cfg, Init(cfg), run);
      Moves(cfg, s, a, i) || (a.Return? && Pending(cfg, s, a.comp).ifc == i)
    ensures
      var s := Exec(cfg, Init(cfg), run);
      && Inv(cfg, s) && i < |s.ifc| && a.comp == cfg.owner[i]
      && (p.alpha > 0.0 ==> Pending(cfg, s, a.comp).time <= LastStamp(s.ifc[i].unpacked, cfg.startTime) + p.delay)
  {
    var s := Exec(cfg, Init(cfg), run);
    StaysCovered(cfg, run, i);
    var c := a.comp;
    assert cfg.program[c][s.pc[c]].ifc < |cfg.owner|;
    if p.alpha > 0.0 && a.Motion? {
      assert AskedBefore(cfg, c, s.pc[c], i, a.sample.time);
    }
    assert Clocked(cfg, s, i);
  }

  /** Such a call is one that a run of the interface may make. */
  lemma CallTimely(cfg: Config, run: seq<Action>, a: Action, i: nat, p: Params)
    requires Suits(cfg, i, p) && Legal(cfg, Init(cfg), run) && Enabled(cfg, Exec(cfg, Init(cfg), run), a)
    requires
      var s := Exec(cfg, Init(cfg), run);
      Moves(cfg, s, a, i) || (a.Return? && Pending(cfg, s, a.comp).ifc == i)
    ensures
      var s := Exec(cfg, Init(cfg), run);
      var time := Pending(cfg, s, a.comp).time;
      && Timely(p, ViewOf(cfg, s, i), time) && (a.Motion? ==> ViewOf(cfg, s, i).last < time)
      && i < |s.ifc| && ViewOf(cfg, s, i).received == s.ifc[i].unpacked
  {
    CallCovered(cfg, run, a, i, p);
    TimelyAt(cfg, Exec(cfg, Init(cfg), run), i, p);
  }

  lemma TimelyAt(cfg: Config, s: State, i: nat, p: Params)
    requires cfg.Disciplined() && Inv(cfg, s) && i < |s.ifc| && p.delay == cfg.delay[i] && Running(cfg, s, cfg.owner[i])
    requires p.alpha > 0.0 ==>
      Pending(cfg, s, cfg.owner[i]).time <= LastStamp(s.ifc[i].unpacked, cfg.startTime) + p.delay
    ensures
      var op := Pending(cfg, s, cfg.owner[i]);
      && Timely(p, ViewOf(cfg, s, i), op.time)
      && (op == SetMotion(i, op.time) ==> ViewOf(cfg, s, i).last < op.time)
      && ViewOf(cfg, s, i).received == s.ifc[i].unpacked
  {
    CallPaced(cfg, s, i);
  }

  /** A packet that is received continues the stamps. */
  lemma ArrivalContinues(cfg: Config, run: seq<Action>, i: nat)
    requires cfg.Disciplined() && run != [] && Legal(cfg, Init(cfg), run) && i < |cfg.owner|
    requires run[|run| - 1].Receive? && Before(cfg, run).down[run[|run| - 1].comp][0].ifc == i
    ensures i < |Before(cfg, run).ifc|
    ensures
      var s := Before(cfg, run);
      StrictStamps(s.ifc[i].unpacked + s.down[run[|run| - 1].comp][0].samples)
  {
    BeforeKeeps(cfg, run);
    assert Reachable(cfg, Exec(cfg, Init(cfg), run));
    Delivery(cfg, Exec(cfg, Init(cfg), run), i);
  }

  // ---- the history of an interface along a run ----

  lemma NeverDividesBefore(p: Params, h: History, events: seq<Event>, more: seq<Event>)
    requires NeverDivides(p, h, events + more)
    ensures NeverDivides(p, h, events)
    ensures more != [] && Run(p, h, events) && !more[0].Arrived? ==> !Dividing(p, Final(p, h, events), more[0].time)
  {
    var all := events + more;
    forall k | 0 <= k < |events| && Run(p, h, events[..k]) && !events[k].Arrived?
      ensures !Dividing(p, Final(p, h, events[..k]), events[k].time)
    {
      assert all[..k] == events[..k] && all[k] == events[k];
    }
    assert all[..|events|] == events;
  }

  lemma NeverDividesThen(p: Params, h: History, events: seq<Event>, e: Event)
    requires NeverDivides(p, h, events)
    requires Run(p, h, events) && !e.Arrived? ==> !Dividing(p, Final(p, h, events), e.time)
    ensures NeverDivides(p, h, events + [e])
  {
    var all := events + [e];
    forall k | 0 <= k < |all| && Run(p, h, all[..k]) && !all[k].Arrived?
      ensures !Dividing(p, Final(p, h, all[..k]), all[k].time)
    {
      if k < |events| {
        assert all[..k] == events[..k] && all[k] == events[k];
      } else {
        assert all[..k] == events;
      }
    }
  }

  /** What a step of the protocol means for interface `i` fits it. */
  lemma EventFits(cfg: Config, run: seq<Action>, i: nat, p: Params)
    requires Suits(cfg, i, p) && run != [] && Legal(cfg, Init(cfg), run)
    ensures
      var s := Before(cfg, run);
      var at := EventsAt(cfg, s, run[|run| - 1], i);
      at != [] ==> Fits(p, ViewOf(cfg, s, i), at[0])
  {
    var s, a := Before(cfg, run), run[|run| - 1];
    var at := EventsAt(cfg, s, a, i);
    if at != [] && at[0].Arrived? {
      ArrivalContinues(cfg, run, i);
      BeforeKeeps(cfg, run);
    } else if at != [] {
      CallTimely(cfg, run[..|run| - 1], a, i, p);
    }
  }

  /** ... and moves its view along. */
  lemma ViewMoves(cfg: Config, s: State, a: Action, i: nat)
    requires cfg.Disciplined() && Inv(cfg, s) && Enabled(cfg, s, a) && i < |s.ifc|
    ensures
      var at := EventsAt(cfg, s, a, i);
      ViewOf(cfg, Apply(cfg, s, a), i) == if at == [] then ViewOf(cfg, s, i) else Next(ViewOf(cfg, s, i), at[0])
  {
    PendingMotion(cfg, s, a);
    ShapedStep(cfg, s, a);
    IfcStep(cfg, s, a, i);
  }

  /** At most one event, which fits and moves the view. */
  ghost predicate MovesOn(p: Params, v: View, at: seq<Event>, next: View) {
    |at| <= 1 && if at == [] then next == v else Fits(p, v, at[0]) && next == Next(v, at[0])
  }

  lemma StepMovesOn(cfg: Config, run: seq<Action>, i: nat, p: Params)
    requires Suits(cfg, i, p) && run != [] && Legal(cfg, Init(cfg), run)
    ensures
      var s := Before(cfg, run);
      MovesOn(p, ViewOf(cfg, s, i), EventsAt(cfg, s, run[|run| - 1], i), ViewOf(cfg, Exec(cfg, Init(cfg), run), i))
  {
    EventFits(cfg, run, i, p);
    BeforeKeeps(cfg, run);
    ViewMoves(cfg, Before(cfg, run), run[|run| - 1], i);
  }

  /** Every step of a run moves the view on. */
  ghost predicate Stepwise(cfg: Config, run: seq<Action>, i: nat, p: Params)
    requires Legal(cfg, Init(cfg), run)
    decreases |run|
  {
    run == [] ||
    (var s := Before(cfg, run);
     && Stepwise(cfg, run[..|run| - 1], i, p)
     && MovesOn(p, ViewOf(cfg, s, i), EventsAt(cfg, s, run[|run| - 1], i), ViewOf(cfg, Exec(cfg, Init(cfg), run), i)))
  }

  lemma {:induction false} RunStepwise(cfg: Config, run: seq<Action>, i: nat, p: Params)
    requires Suits(cfg, i, p) && Legal(cfg, Init(cfg), run)
    ensures Stepwise(cfg, run, i, p)
    decreases |run|
  {
    if run != [] {
      var s := Before(cfg, run);
      RunStepwise(cfg, run[..|run| - 1], i, p);
      StepMovesOn(cfg, run, i, p);
    }
  }

  lemma ViewAtStart(cfg: Config, i: nat, p: Params)
    requires Suits(cfg, i, p)
    ensures ViewOf(cfg, Init(cfg), i) == Seen(Fresh(cfg.startTime))
  {
  }

  /** One more event, or none. */
  lemma RunsOn(p: Params, start: History, before: seq<Event>, at: seq<Event>, v: View, next: View)
    requires Run(p, start, before) && Kept(p, start) && v == Seen(Final(p, start, before))
    requires MovesOn(p, v, at, next)
    requires at != [] && !at[0].Arrived? ==> !Dividing(p, Final(p, start, before), at[0].time)
    ensures Run(p, start, before + at) && next == Seen(Final(p, start, before + at))
  {
    if at == [] {
      assert before + at == before;
    } else {
      var h, e := Final(p, start, before), at[0];
      assert at == [e];
      RunKeeps(p, start, before);
      HistoryStep(p, h, e);
      RunThen(p, start, before, e);
    }
  }

  lemma {:induction false} StepwiseRuns(cfg: Config, run: seq<Action>, i: nat, p: Params, start: History)
    requires Legal(cfg, Init(cfg), run) && Stepwise(cfg, run, i, p)
    requires Kept(p, start) && ViewOf(cfg, Init(cfg), i) == Seen(start) && NeverDivides(p, start, EventsOf(cfg, run, i))
    ensures Run(p, start, EventsOf(cfg, run, i))
    ensures ViewOf(cfg, Exec(cfg, Init(cfg), run), i) == Seen(Final(p, start, EventsOf(cfg, run, i)))
    decreases |run|
  {
    if run != [] {
      var rest, s := run[..|run| - 1], Before(cfg, run);
      var before, at := EventsOf(cfg, rest, i), EventsAt(cfg, s, run[|run| - 1], i);
      NeverDividesBefore(p, start, before, at);
      StepwiseRuns(cfg, rest, i, p, start);
      RunsOn(p, start, before, at, ViewOf(cfg, s, i), ViewOf(cfg, Exec(cfg, Init(cfg), run), i));
    }
  }

  /** What the protocol makes of an interface is a run of it, as long as nothing divides by
      zero: packets continue the stamps, and every call is one that its windows are kept for. */
  lemma ProtocolRuns(cfg: Config, run: seq<Action>, i: nat, p: Params)
    requires Suits(cfg, i, p) && Legal(cfg, Init(cfg), run)
    requires NeverDivides(p, Fresh(cfg.startTime), EventsOf(cfg, run, i))
    ensures
      var events, start := EventsOf(cfg, run, i), Fresh(cfg.startTime);
      Run(p, start, events) && ViewOf(cfg, Exec(cfg, Init(cfg), run), i) == Seen(Final(p, start, events))
  {
    FreshKept(p, cfg.startTime);
    ViewAtStart(cfg, i, p);
    RunStepwise(cfg, run, i, p);
    StepwiseRuns(cfg, run, i, p, Fresh(cfg.startTime));
  }

  /** The next step of the protocol answers a call at interface `i`: a force, or motion. */
  ghost predicate Answers(cfg: Config, run: seq<Action>, a: Action, i: nat)
    requires Legal(cfg, Init(cfg), run)
  {
    var s := Exec(cfg, Init(cfg), run);
    Enabled(cfg, s, a) && (Moves(cfg, s, a, i) || (a.Return? && Pending(cfg, s, a.comp).ifc == i))
  }

  /** A call at `time` is answered from the windows as the full histories would answer it,
      unless it divides by zero; and that happens exactly where the first received stamp is
      hit again. */
  ghost predicate AnsweredExactly(p: Params, h: History, received: seq<Sample>, time: real) {
    && h.Received() == received && StrictStamps(received) && Grounded(p, h, time)
    && (Dividing(p, h, time) <==> HitsRepeatedStamp(p, h, time)) && (p.alpha <= 0.0 ==> !Dividing(p, h, time))
    && (!Dividing(p, h, time) ==>
          && Answerable(p, received, h.Damped(), RequestAt(p, time))
          && WindowAnswer(p, h, time) == Answer(p, received, h.Damped(), RequestAt(p, time)))
  }

  lemma ExactAt(p: Params, h: History, v: View, time: real)
    requires Kept(p, h) && v == Seen(h) && Timely(p, v, time)
    ensures AnsweredExactly(p, h, v.received, time)
  {
    AsksGrounded(p, h, time);
    DividingIs(p, h, time);
    if p.alpha <= 0.0 {
      UndampedNeverDivides(p, h, time);
    }
    if !Dividing(p, h, time) {
      AnswerRefines(p, h, time);
    }
  }

  lemma ExactAfter(cfg: Config, run: seq<Action>, i: nat, p: Params, time: real)
    requires Suits(cfg, i, p) && Legal(cfg, Init(cfg), run)
    requires NeverDivides(p, Fresh(cfg.startTime), EventsOf(cfg, run, i))
    requires Timely(p, ViewOf(cfg, Exec(cfg, Init(cfg), run), i), time)
    ensures Run(p, Fresh(cfg.startTime), EventsOf(cfg, run, i))
    ensures AnsweredExactly(p, Final(p, Fresh(cfg.startTime), EventsOf(cfg, run, i)),
                            ViewOf(cfg, Exec(cfg, Init(cfg), run), i).received, time)
  {
    ProtocolRuns(cfg, run, i, p);
    FreshKept(p, cfg.startTime);
    RunKeeps(p, Fresh(cfg.startTime), EventsOf(cfg, run, i));
    ExactAt(p, Final(p, Fresh(cfg.startTime), EventsOf(cfg, run, i)), ViewOf(cfg, Exec(cfg, Init(cfg), run), i), time);
  }

  /** In every run of the protocol each call is answered exactly. */
  lemma AnswersAreExact(cfg: Config, run: seq<Action>, a: Action, i: nat, p: Params)
    requires Suits(cfg, i, p) && Legal(cfg, Init(cfg), run) && Answers(cfg, run, a, i)
    requires NeverDivides(p, Fresh(cfg.startTime), EventsOf(cfg, run, i))
    ensures Run(p, Fresh(cfg.startTime), EventsOf(cfg, run, i)) && i < |Exec(cfg, Init(cfg), run).ifc|
    ensures
      var s := Exec(cfg, Init(cfg), run);
      AnsweredExactly(p, Final(p, Fresh(cfg.startTime), EventsOf(cfg, run, i)), s.ifc[i].unpacked,
                      Pending(cfg, s, a.comp).time)
  {
    CallTimely(cfg, run, a, i, p);
    ExactAfter(cfg, run, i, p, Pending(cfg, Exec(cfg, Init(cfg), run), a.comp).time);
  }

  /** Without damping nothing divides by zero in any run. */
  lemma {:induction false} UndampedRuns(cfg: Config, run: seq<Action>, i: nat, p: Params)
    requires Suits(cfg, i, p) && Legal(cfg, Init(cfg), run) && p.alpha <= 0.0
    ensures NeverDivides(p, Fresh(cfg.startTime), EventsOf(cfg, run, i))
    decreases |run|
  {
    if run != [] {
      var s, a, rest := Before(cfg, run), run[|run| - 1], run[..|run| - 1];
      var before, at := EventsOf(cfg, rest, i), EventsAt(cfg, s, a, i);
      UndampedRuns(cfg, rest, i, p);
      if at == [] {
        assert before + at == before;
      } else {
        UndampedCall(cfg, rest, a, i, p);
        NeverDividesThen(p, Fresh(cfg.startTime), before, at[0]);
      }
    }
  }

  lemma UndampedCall(cfg: Config, run: seq<Action>, a: Action, i: nat, p: Params)
    requires Suits(cfg, i, p) && Legal(cfg, Init(cfg), run) && Enabled(cfg, Exec(cfg, Init(cfg), run), a)
    requires p.alpha <= 0.0 && NeverDivides(p, Fresh(cfg.startTime), EventsOf(cfg, run, i))
    ensures Run(p, Fresh(cfg.startTime), EventsOf(cfg, run, i))
    ensures Answers(cfg, run, a, i) ==>
      var s := Exec(cfg, Init(cfg), run);
      !Dividing(p, Final(p, Fresh(cfg.startTime), EventsOf(cfg, run, i)), Pending(cfg, s, a.comp).time)
  {
    ProtocolRuns(cfg, run, i, p);
    if Answers(cfg, run, a, i) {
      AnswersAreExact(cfg, run, a, i, p);
    }
  }

  /** ... so that each call gets the wave received for one delay before. */
  lemma UndampedAnswers(cfg: Config, run: seq<Action>, a: Action, i: nat, p: Params)
    requires Suits(cfg, i, p) && Legal(cfg, Init(cfg), run) && Answers(cfg, run, a, i) && p.alpha <= 0.0
    ensures Run(p, Fresh(cfg.startTime), EventsOf(cfg, run, i)) && i < |Exec(cfg, Init(cfg), run).ifc|
    ensures
      var s := Exec(cfg, Init(cfg), run);
      var h := Final(p, Fresh(cfg.startTime), EventsOf(cfg, run, i));
      var time := Pending(cfg, s, a.comp).time;
      && StrictStamps(s.ifc[i].unpacked) && !Dividing(p, h, time)
      && WindowAnswer(p, h, time) == Undamped(p, s.ifc[i].unpacked, RequestAt(p, time))
  {
    UndampedRuns(cfg, run, i, p);
    AnswersAreExact(cfg, run, a, i, p);
    UndampedCall(cfg, run, a, i, p);
  }
}
