/** Exactly when a lookup of an interface with damping divides by zero, and a run in which
    it does. */
module WaveDivision {
  import opened Samples
  import opened WaveHistory
  import opened WaveWindows
  import opened WaveRuns

  /** The request comes two and a half delays after the first received sample, stored answers
      go on behind that stamp, and the answer behind the interval that the undamped lookup
      leaves behind still carries it. */
  predicate HitsRepeatedStamp(p: Params, h: History, time: real) {
    var j := IndexBetween(p, h, time);
    && h.Received() != []
    && time - p.delay - DampDelay(p.delay) == h.Received()[0].time < h.clock - p.delay
    && j + 1 < |h.Damped()| && h.Damped()[j + 1].time == h.Received()[0].time
  }

  /** Nothing stored is stamped before the first received sample. */
  lemma StoredNotBefore(p: Params, received: seq<Sample>, damped: seq<Sample>, clock: real, k: nat)
    requires Stamped(p, received, damped, clock) && OrderedStamps(damped) && k < |damped|
    ensures received != [] && received[0].time <= damped[k].time
  {
    assert damped[0].time <= damped[k].time;
  }

  /** The damped request lies within the stored answers, or before them. */
  lemma DampedRequestAt(p: Params, h: History, time: real)
    requires Kept(p, h) && Asks(p, h, time) && h.Damped() != []
    ensures h.Received() != []
    ensures
      var r := Undamped(p, h.Received(), RequestAt(p, time));
      && UsesDamping(p, r, h.Damped())
      && DampedRequest(p, r).time <= h.Damped()[|h.Damped()| - 1].time
      && DampedRequest(p, r).time == Later(h.Received()[0].time, time - p.delay) - DampDelay(p.delay)
  {
    AnswerStamp(p, h.Received(), RequestAt(p, time));
  }

  /** Among stamps that repeat at most the first received one, a lookup that does not go past
      the end divides by zero only there. */
  lemma DividesOnlyAtFirst(p: Params, received: seq<Sample>, damped: seq<Sample>, clock: real, q: real, j: nat)
    requires Stamped(p, received, damped, clock) && OrderedStamps(damped) && damped != []
    requires q <= damped[|damped| - 1].time
    ensures Divides(damped, q, j) <==>
      && received != [] && q == received[0].time < clock - p.delay
      && j + 1 < |damped| && damped[j + 1].time == received[0].time
  {
    var d := damped;
    if Inside(d, q) {
      DividesExactly(d, q, j);
      if m :| Start(d, j) < m < |d| && d[m - 1].time == q && d[m].time == q {
        assert d[m - 1].time == d[m].time;
        StoredNotBefore(p, received, d, clock, j + 1);
        assert d[j + 1].time <= d[m].time;
      }
      if received != [] && q == received[0].time && j + 1 < |d| && d[j + 1].time == received[0].time {
        StoredNotBefore(p, received, d, clock, j);
        assert d[j].time <= d[j + 1].time;
        assert Start(d, j) < j + 1 && d[(j + 1) - 1].time == q;
      }
    }
  }

  /** Behind the first received stamp nothing stored is repeated. */
  lemma UnrepeatedLater(p: Params, received: seq<Sample>, gone: seq<Sample>, w: seq<Sample>, clock: real, q: real)
    requires Stamped(p, received, gone + w, clock) && received != [] && received[0].time < q
    ensures Unrepeated(w, q)
  {
    forall i, j | 0 <= i < j < |w| ensures !(w[i].time == q && w[j].time == q) {
      assert (gone + w)[|gone| + i] == w[i] && (gone + w)[|gone| + j] == w[j];
    }
  }

  /** A stored answer that is still there is not stamped before the first received sample. */
  lemma WindowNotBefore(p: Params, received: seq<Sample>, gone: seq<Sample>, w: seq<Sample>, clock: real, k: nat)
    requires Stamped(p, received, gone + w, clock) && OrderedStamps(gone + w) && k < |w|
    ensures received != [] && received[0].time <= w[k].time
  {
    StoredNotBefore(p, received, gone + w, clock, |gone| + k);
    assert (gone + w)[|gone| + k] == w[k];
  }

  /** Once stored answers have been dropped, every lookup is behind the first received sample. */
  lemma DroppedIsPast(p: Params, h: History, q: real, j: nat)
    requires Kept(p, h) && h.dampedGone != [] && h.clock - p.delay - DampDelay(p.delay) <= q
    requires h.dampedWindow != [] && q <= h.dampedWindow[|h.dampedWindow| - 1].time
    ensures h.Received() != [] && h.Received()[0].time < q && !Divides(h.dampedWindow, q, j)
  {
    WindowNotBefore(p, h.Received(), h.dampedGone, h.dampedWindow, h.clock, 1);
    UnrepeatedLater(p, h.Received(), h.dampedGone, h.dampedWindow, h.clock, q);
    OrderedSuffix(h.dampedGone, h.dampedWindow);
    NeverDegenerate(h.dampedWindow, q);
  }

  /** What a window shares with the whole of its history. */
  lemma WholeWindow(gone: seq<Sample>, w: seq<Sample>)
    ensures gone == [] ==> gone + w == w
    ensures w != [] ==> (gone + w)[|gone + w| - 1] == w[|w| - 1]
  {
  }

  /** The damped lookup, once there is something to look up. */
  lemma DampedDivides(p: Params, h: History, q: real, j: nat)
    requires Kept(p, h) && h.Damped() != [] && h.clock - p.delay - DampDelay(p.delay) <= q
    requires q <= h.Damped()[|h.Damped()| - 1].time
    ensures h.Received() != []
    ensures Divides(h.dampedWindow, q, j) <==>
      && q == h.Received()[0].time < h.clock - p.delay
      && j + 1 < |h.Damped()| && h.Damped()[j + 1].time == h.Received()[0].time
  {
    WholeWindow(h.dampedGone, h.dampedWindow);
    if h.dampedGone == [] {
      DividesOnlyAtFirst(p, h.Received(), h.Damped(), h.clock, q, j);
    } else {
      DroppedIsPast(p, h, q, j);
    }
  }

  lemma DividingIs(p: Params, h: History, time: real)
    requires Kept(p, h) && Asks(p, h, time)
    ensures Dividing(p, h, time) <==> HitsRepeatedStamp(p, h, time)
  {
    UndampedRefines(p, h, time);
    assert h.dampedWindow == [] <==> h.Damped() == [];
    if h.Damped() != [] {
      DampedRequestAt(p, h, time);
      var r := UndampedFrom(p, h, time);
      AnswerStamp(p, h.Received(), RequestAt(p, time));
      DampedDivides(p, h, DampedRequest(p, r).time, IndexBetween(p, h, time));
    }
  }

  /** In every run a lookup divides by zero exactly when the damped one is for the stamp of the
      first received sample, answers have been stored behind that stamp, and the search starts
      before the last answer that was clamped to it. */
  lemma DampedDivision(p: Params, start: real, events: seq<Event>, time: real)
    requires 0.0 < p.delay && TIME_WITHOUT_DATA < start - p.delay
    requires Run(p, Fresh(start), events) && Asks(p, Final(p, Fresh(start), events), time)
    ensures
      var h := Final(p, Fresh(start), events);
      Dividing(p, h, time) <==> HitsRepeatedStamp(p, h, time)
  {
    FreshKept(p, start);
    RunKeeps(p, Fresh(start), events);
    DividingIs(p, Final(p, Fresh(start), events), time);
  }

  // ---- a run in which it does, and one in which it does not ----

  /** A sample without motion and wave. */
  function Still(time: real): Sample {
    Sample(time, 0.0, 0.0, 0.0)
  }

  /** Nothing has been dropped yet, and no search has left the first interval. */
  function Shortly(damped: seq<Sample>, window: seq<Sample>, clock: real): History {
    History([], window, [], damped, clock, 0)
  }

  ghost predicate Leads(p: Params, h: History, events: seq<Event>, t: History) {
    Run(p, h, events) && Final(p, h, events) == t
  }

  lemma Then(p: Params, h: History, e: Event, rest: seq<Event>, t: History)
    requires Possible(p, h, e) && Leads(p, After(p, h, e), rest, t)
    ensures Leads(p, h, [e] + rest, t)
  {
    assert ([e] + rest)[1..] == rest;
  }

  /** Motions before any data has arrived, and the first sample. */
  lemma MovesWithoutData(p: Params, clock: real, time: real)
    requires p.delay == 2.0 && clock < time <= clock + 1.0
    ensures Possible(p, Shortly([], [], clock), Moved(time))
    ensures After(p, Shortly([], [], clock), Moved(time)) == Shortly([], [], time)
  {
  }

  /** A motion whose answer is the newest or the only sample received, while the damped one
      lies before everything stored. */
  lemma MovesAtTheEdge(p: Params, window: seq<Sample>, damped: seq<Sample>, clock: real, time: real, answer: real)
    requires p.delay == 2.0 && 0.0 < p.alpha <= 1.0 && clock < time <= clock + 1.0 && time <= 5.0
    requires 0 < |window| <= 3 && window[|window| - 1] == Still(answer) && 0.0 < answer <= 3.0
    requires if |window| == 1 then time - 2.0 <= answer else time - 2.0 == answer && window[0].time < answer
    requires |damped| <= 3 && (damped != [] ==> damped[0] == Still(1.0)) && (|damped| == 3 ==> damped[2].time == 2.0)
    ensures Possible(p, Shortly(damped, window, clock), Moved(time))
    ensures After(p, Shortly(damped, window, clock), Moved(time))
         == Shortly(damped + [Still(answer)], window, time)
  {
    var h := Shortly(damped, window, clock);
    assert h.Received() == window;
    assert UndampedFrom(p, h, time) == Still(answer) && IndexBetween(p, h, time) == 0;
    if damped != [] {
      var q := DampedRequest(p, Still(answer)).time;
      assert q < damped[0].time;
      assert !Inside(damped, q) && !Divides(damped, q, 0);
      assert DampedFrom(p, damped, Still(answer), 0) == Still(1.0);
      assert Mix(p, Still(answer), Still(1.0)) == Still(answer);
    }
    assert WindowAnswer(p, h, time) == Still(answer);
  }

  /** A motion at the edge of the data, before a run. */
  lemma EdgeThen(p: Params, window: seq<Sample>, damped: seq<Sample>, clock: real, time: real, answer: real,
                 rest: seq<Event>, t: History)
    requires p.delay == 2.0 && 0.0 < p.alpha <= 1.0 && clock < time <= clock + 1.0 && time <= 5.0
    requires 0 < |window| <= 3 && window[|window| - 1] == Still(answer) && 0.0 < answer <= 3.0
    requires if |window| == 1 then time - 2.0 <= answer else time - 2.0 == answer && window[0].time < answer
    requires |damped| <= 3 && (damped != [] ==> damped[0] == Still(1.0)) && (|damped| == 3 ==> damped[2].time == 2.0)
    requires Leads(p, Shortly(damped + [Still(answer)], window, time), rest, t)
    ensures Leads(p, Shortly(damped, window, clock), [Moved(time)] + rest, t)
  {
    MovesAtTheEdge(p, window, damped, clock, time, answer);
    Then(p, Shortly(damped, window, clock), Moved(time), rest, t);
  }

  lemma EarlyThen(p: Params, clock: real, time: real, rest: seq<Event>, t: History)
    requires p.delay == 2.0 && clock < time <= clock + 1.0 && Leads(p, Shortly([], [], time), rest, t)
    ensures Leads(p, Shortly([], [], clock), [Moved(time)] + rest, t)
  {
    MovesWithoutData(p, clock, time);
    Then(p, Shortly([], [], clock), Moved(time), rest, t);
  }

  lemma ArrivesThen(p: Params, window: seq<Sample>, damped: seq<Sample>, clock: real, time: real,
                    rest: seq<Event>, t: History)
    requires StrictStamps(window + [Still(time)]) && Leads(p, Shortly(damped, window + [Still(time)], clock), rest, t)
    ensures Leads(p, Shortly(damped, window, clock), [Arrived([Still(time)])] + rest, t)
  {
    assert [] + window == window;
    Then(p, Shortly(damped, window, clock), Arrived([Still(time)]), rest, t);
  }

  /** Whole stamps from one to `n`. */
  function Stills(n: nat): (d: seq<Sample>)
    ensures |d| == n && StrictStamps(d) && forall k :: 0 <= k < n ==> d[k] == Still((k + 1) as real)
  {
    if n == 0 then [] else Stills(n - 1) + [Still(n as real)]
  }

  /** The first received stamp is stored twice. */
  function Twice(n: nat): (d: seq<Sample>)
    ensures |d| == n + 1 && d[0] == Still(1.0) && forall k :: 0 < k <= n ==> d[k] == Still(k as real)
  {
    if n == 0 then [Still(1.0)] else Twice(n - 1) + [Still(n as real)]
  }

  function Doubled(): History {
    Shortly(Twice(3), Stills(4), 5.0)
  }

  /** One answer behind another: data for the step from `n` to `n + 1` arrives, then motion. */
  lemma NextAnswer(p: Params, n: nat, rest: seq<Event>)
    requires p.delay == 2.0 && 0.0 < p.alpha <= 1.0 && 1 <= n <= 2
    requires Leads(p, Shortly(Twice(n + 1), Stills(n + 1), (n + 3) as real), rest, Doubled())
    ensures Leads(p, Shortly(Twice(n), Stills(n), (n + 2) as real),
                  [Arrived([Still((n + 1) as real)])] + ([Moved((n + 3) as real)] + rest), Doubled())
  {
    EdgeThen(p, Stills(n + 1), Twice(n), (n + 2) as real, (n + 3) as real, (n + 1) as real, rest, Doubled());
    ArrivesThen(p, Stills(n), Twice(n), (n + 2) as real, (n + 1) as real, [Moved((n + 3) as real)] + rest, Doubled());
  }

  lemma RunsToDoubled(p: Params)
    requires p.delay == 2.0 && 0.0 < p.alpha <= 1.0
    ensures Leads(p, Fresh(0.0), DividingRun(), Doubled())
  {
    var events: seq<Event> := [];
    assert Leads(p, Doubled(), events, Doubled());
    ArrivesThen(p, Stills(3), Twice(3), 5.0, 4.0, events, Doubled());
    events := [Arrived([Still(4.0)])] + events;
    NextAnswer(p, 2, events);
    events := [Arrived([Still(3.0)])] + ([Moved(5.0)] + events);
    NextAnswer(p, 1, events);
    events := [Arrived([Still(2.0)])] + ([Moved(4.0)] + events);
    events := StartsDoubled(p, events);
    assert events == DividingRun();
  }

  /** Six motions, with data arriving when a motion first needs it. */
  function DividingRun(): seq<Event> {
    [Moved(1.0), Moved(2.0), Arrived([Still(1.0)]), Moved(2.5), Moved(3.0), Arrived([Still(2.0)]), Moved(4.0),
     Arrived([Still(3.0)]), Moved(5.0), Arrived([Still(4.0)])]
  }

  lemma StartsDoubled(p: Params, rest: seq<Event>) returns (events: seq<Event>)
    requires p.delay == 2.0 && 0.0 < p.alpha <= 1.0 && Leads(p, Shortly(Twice(1), Stills(1), 3.0), rest, Doubled())
    ensures Leads(p, Fresh(0.0), events, Doubled())
    ensures events == [Moved(1.0), Moved(2.0), Arrived([Still(1.0)]), Moved(2.5), Moved(3.0)] + rest
  {
    EdgeThen(p, Stills(1), Twice(0), 2.5, 3.0, 1.0, rest, Doubled());
    events := [Moved(3.0)] + rest;
    assert [] + [Still(1.0)] == Twice(0);
    EdgeThen(p, Stills(1), [], 2.0, 2.5, 1.0, events, Doubled());
    events := StartsWithData(p, [Moved(2.5)] + events);
  }

  lemma StartsWithData(p: Params, rest: seq<Event>) returns (events: seq<Event>)
    requires p.delay == 2.0 && Leads(p, Shortly([], Stills(1), 2.0), rest, Doubled())
    ensures Leads(p, Fresh(0.0), events, Doubled())
    ensures events == [Moved(1.0), Moved(2.0), Arrived([Still(1.0)])] + rest
  {
    ArrivesThen(p, [], [], 2.0, 1.0, rest, Doubled());
    events := [Arrived([Still(1.0)])] + rest;
    EarlyThen(p, 1.0, 2.0, events, Doubled());
    events := [Moved(2.0)] + events;
    EarlyThen(p, 0.0, 1.0, events, Doubled());
    events := [Moved(1.0)] + events;
  }

  /** The two queues after the run. */
  ghost predicate Ended(w: seq<Sample>, d: seq<Sample>) {
    && |w| == |d| == 4 && w[0] == Still(1.0) && w[1] == Still(2.0) && w[2] == Still(3.0) && w[3] == Still(4.0)
    && d[0] == Still(1.0) && d[1] == Still(1.0) && d[2] == Still(2.0) && d[3] == Still(3.0)
  }

  /** The damped lookup of the force at 6. */
  lemma DampedAtSix(w: seq<Sample>, d: seq<Sample>, index: nat)
    requires Ended(w, d) && index < 4
    ensures Divides(d, 1.0, index) <==> index == 0
  {
    assert Inside(d, 1.0);
    assert Hinted(d, 1.0, index) == if index == 0 then 0 else 1;
  }

  /** The force at 6, for an interval remembered from before. */
  lemma AskedAtSix(p: Params, w: seq<Sample>, d: seq<Sample>, index: nat)
    requires p.delay == 2.0 && 0.0 < p.alpha <= 1.0 && Ended(w, d) && index < 4
    ensures Asks(p, Shortly(d, w, 5.0).(index := index), 6.0)
    ensures Dividing(p, Shortly(d, w, 5.0).(index := index), 6.0) <==> index == 0
  {
    var h := Shortly(d, w, 5.0).(index := index);
    assert h.Received() == w;
    assert UndampedFrom(p, h, 6.0) == Still(4.0) && IndexBetween(p, h, 6.0) == index;
    DampedAtSix(w, d, index);
  }

  /** The undamped lookup of the force at 5.5. */
  lemma UndampedJustBefore(p: Params, w: seq<Sample>, d: seq<Sample>)
    requires p.delay == 2.0 && Ended(w, d)
    ensures !Divides(w, 3.5, 0) && IndexBetween(p, Shortly(d, w, 5.0), 5.5) == 2
    ensures UndampedFrom(p, Shortly(d, w, 5.0), 5.5).time == 3.5
  {
    assert Inside(w, 3.5) && Hinted(w, 3.5, 0) == 2;
  }

  /** A force asked for just before leaves the search behind the repeated stamp. */
  lemma AskedJustBefore(p: Params, w: seq<Sample>, d: seq<Sample>)
    requires p.delay == 2.0 && 0.0 < p.alpha <= 1.0 && Ended(w, d)
    ensures Possible(p, Shortly(d, w, 5.0), Asked(5.5))
    ensures After(p, Shortly(d, w, 5.0), Asked(5.5)) == Shortly(d, w, 5.0).(index := 2)
  {
    var h := Shortly(d, w, 5.0);
    assert h.Received() == w;
    UndampedJustBefore(p, w, d);
    assert !Inside(d, 0.5);
  }

  /** A run after which the force at 6 divides by zero, with any damping. It does not when the
      force at 5.5 has been asked for before: only the remembered interval differs. */
  lemma DivisionHappens(p: Params)
    requires p.delay == 2.0 && 0.0 < p.alpha <= 1.0
    ensures Run(p, Fresh(0.0), DividingRun())
    ensures
      var h := Final(p, Fresh(0.0), DividingRun());
      && Asks(p, h, 6.0) && Dividing(p, h, 6.0)
      && Possible(p, h, Asked(5.5)) && Possible(p, After(p, h, Asked(5.5)), Asked(6.0))
  {
    RunsToDoubled(p);
    AskedAtSix(p, Stills(4), Twice(3), 0);
    AskedJustBefore(p, Stills(4), Twice(3));
    AskedAtSix(p, Stills(4), Twice(3), 2);
  }
}
