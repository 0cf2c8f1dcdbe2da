/** Whole runs of one interface: what arrives, which forces are asked for, and when it moves. */
module WaveRuns {
  import opened Samples
  import opened WaveHistory
  import opened WaveWindows

  /** The request for the wave that acts at `time` is not beyond the data. */
  predicate WithinData(p: Params, received: seq<Sample>, time: real) {
    received != [] ==> time - p.delay <= received[|received| - 1].time
  }

  /** A force may be asked for at most one and a half delays after the last motion, and with
      damping not beyond the data. */
  predicate Asks(p: Params, h: History, time: real) {
    && h.clock <= time <= h.clock + DampDelay(p.delay)
    && (p.alpha > 0.0 ==> WithinData(p, h.Received(), time))
  }

  /** Received stamps never repeat, motions go forward, and no lookup divides by zero. */
  ghost predicate Possible(p: Params, h: History, e: Event) {
    match e
    case Arrived(samples) => StrictStamps(h.Received() + samples)
    case Asked(time) => Asks(p, h, time) && !Dividing(p, h, time)
    case Moved(time) => h.clock < time && Asks(p, h, time) && !Dividing(p, h, time)
  }

  ghost predicate Run(p: Params, h: History, events: seq<Event>)
    decreases |events|
  {
    events == [] || (Possible(p, h, events[0]) && Run(p, After(p, h, events[0]), events[1..]))
  }

  function Final(p: Params, h: History, events: seq<Event>): History
    requires Run(p, h, events)
    decreases |events|
  {
    if events == [] then h else Final(p, After(p, h, events[0]), events[1..])
  }

  /** An interface as it is registered. */
  function Fresh(start: real): History {
    History([], [], [], [], start, 0)
  }

  /** Stored answers are stamped in order, repeating at most the first received stamp. */
  ghost predicate Stamped(p: Params, received: seq<Sample>, damped: seq<Sample>, clock: real) {
    && (p.alpha <= 0.0 ==> damped == [])
    && (damped != [] ==>
          && received != []
          && received[0].time <= damped[0].time
          && damped[|damped| - 1].time == Later(received[0].time, clock - p.delay))
    && (forall i, j :: 0 <= i < j < |damped| && damped[i].time == damped[j].time ==>
          received != [] && damped[j].time == received[0].time)
  }

  ghost predicate Kept(p: Params, h: History) {
    && Holds(p, h) && Stamped(p, h.Received(), h.Damped(), h.clock) && TIME_WITHOUT_DATA < h.clock - p.delay
  }

  lemma AsksGrounded(p: Params, h: History, time: real)
    requires Kept(p, h) && Asks(p, h, time)
    ensures Grounded(p, h, time)
  {
    if p.alpha > 0.0 {
      WithinDataGrounded(p, h, time);
    }
  }

  lemma StampedArrived(p: Params, received: seq<Sample>, samples: seq<Sample>, damped: seq<Sample>, clock: real)
    requires Stamped(p, received, damped, clock)
    ensures Stamped(p, received + samples, damped, clock)
  {
    assert received != [] ==> (received + samples)[0] == received[0];
  }

  /** A stored answer is stamped after the earlier ones unless it is clamped like them. */
  lemma StampedNext(p: Params, received: seq<Sample>, damped: seq<Sample>, clock: real, time: real, answer: Sample)
    requires Stamped(p, received, damped, clock) && OrderedStamps(damped)
    requires TIME_WITHOUT_DATA < clock - p.delay && clock < time
    requires received == [] ==> answer.time == TIME_WITHOUT_DATA
    requires p.alpha > 0.0 && received != [] ==> answer.time == Later(received[0].time, time - p.delay)
    ensures Stamped(p, received, Remember(p, damped, answer), time)
  {
  }

  lemma AnswerTime(p: Params, h: History, time: real)
    requires Kept(p, h) && Asks(p, h, time) && Answerable(p, h.Received(), h.Damped(), RequestAt(p, time))
    ensures
      var t := Answer(p, h.Received(), h.Damped(), RequestAt(p, time)).time;
      && (h.Received() == [] ==> t == TIME_WITHOUT_DATA)
      && (p.alpha > 0.0 && h.Received() != [] ==> t == Later(h.Received()[0].time, time - p.delay))
  {
    if p.alpha > 0.0 && h.Received() != [] {
      AnswerStamp(p, h.Received(), RequestAt(p, time));
    }
  }

  lemma KeptMoved(p: Params, h: History, time: real)
    requires Kept(p, h) && Possible(p, h, Moved(time))
    ensures Kept(p, After(p, h, Moved(time)))
  {
    AsksGrounded(p, h, time);
    HoldsMoved(p, h, time);
    AnswerTime(p, h, time);
    StampedNext(p, h.Received(), h.Damped(), h.clock, time,
                Answer(p, h.Received(), h.Damped(), RequestAt(p, time)));
  }

  lemma KeptAfter(p: Params, h: History, e: Event)
    requires Kept(p, h) && Possible(p, h, e)
    ensures Kept(p, After(p, h, e))
  {
    match e
    case Arrived(samples) =>
      HoldsArrived(p, h, samples);
      StampedArrived(p, h.Received(), samples, h.Damped(), h.clock);
    case Asked(time) =>
      AsksGrounded(p, h, time);
      HoldsAfter(p, h, e);
    case Moved(time) => KeptMoved(p, h, time);
  }

  lemma {:induction false} RunKeeps(p: Params, h: History, events: seq<Event>)
    requires Kept(p, h) && Run(p, h, events)
    ensures Kept(p, Final(p, h, events))
    decreases |events|
  {
    if events != [] {
      KeptAfter(p, h, events[0]);
      RunKeeps(p, After(p, h, events[0]), events[1..]);
    }
  }

  lemma FreshKept(p: Params, start: real)
    requires 0.0 < p.delay && TIME_WITHOUT_DATA < start - p.delay
    ensures Kept(p, Fresh(start))
  {
    assert Fresh(start).Received() == [] && Fresh(start).Damped() == [];
  }
}
