/** What one end of a one-dimensional connection answers: from complete histories, and from
    the sliding windows and the remembered search interval that it really keeps. */
module WaveWindows {
  import opened Samples
  import opened WaveHistory

  /** Connection parameters, as handed out when the interface is registered. A positive
      `mode` asks for start values only instead of a simulation. */
  datatype Params = Params(delay: real, zf: real, alpha: real, origin: real, hydraulic: bool, mode: real)

  /** Force and flow reported before any wave has been received. */
  datatype Initial = Initial(force: real, flow: real)

  // ---- what one end computes ----

  /** The request for the damped wave that belongs to an undamped answer. */
  function DampedRequest(p: Params, answer: Sample): Sample {
    Sample(answer.time - DampDelay(p.delay), 0.0, 0.0, 0.0)
  }

  predicate UsesDamping(p: Params, answer: Sample, damped: seq<Sample>) {
    p.alpha > 0.0 && answer.time != TIME_WITHOUT_DATA && damped != []
  }

  function Mix(p: Params, answer: Sample, damped: Sample): Sample {
    answer.(wave := answer.wave * (1.0 - p.alpha) + damped.wave * p.alpha)
  }

  /** The answer from the received samples alone. */
  function Undamped(p: Params, received: seq<Sample>, request: Sample): Sample
    requires StrictStamps(received)
  {
    StrictDetermined(received, request.time);
    Reference(received, request, false, p.origin)
  }

  /** Both histories determine the answer. Received stamps never repeat; stored answers may,
      where they have been clamped to the first sample. */
  ghost predicate Answerable(p: Params, received: seq<Sample>, damped: seq<Sample>, request: Sample) {
    && StrictStamps(received) && OrderedStamps(damped)
    && var r := Undamped(p, received, request);
       UsesDamping(p, r, damped) ==> Determined(damped, DampedRequest(p, r).time)
  }

  /** The answer to a request when both histories are complete. */
  function Answer(p: Params, received: seq<Sample>, damped: seq<Sample>, request: Sample): Sample
    requires Answerable(p, received, damped, request)
  {
    var r := Undamped(p, received, request);
    if UsesDamping(p, r, damped) then Mix(p, r, Reference(damped, DampedRequest(p, r), true, p.origin)) else r
  }

  /** The request for the wave that acts at `time`. */
  function RequestAt(p: Params, time: real): Sample {
    Sample(time - p.delay, 0.0, 0.0, 0.0)
  }

  /** Received wave minus impedance times velocity, or the value already there when
      no wave has been received. */
  function WaveForce(p: Params, speed: real, answer: Sample, default: real): real {
    if answer.time == TIME_WITHOUT_DATA then default else answer.wave - p.zf * speed
  }

  /** The force at an interface that moves with `speed`; hydraulic flow is counted
      in the opposite direction. */
  function Force(p: Params, init: Initial, speed: real, answer: Sample): real {
    WaveForce(p, if p.hydraulic then -speed else speed, answer, init.force)
  }

  /** The wave to send back. */
  function OutgoingWave(p: Params, init: Initial, speed: real, answer: Sample): real {
    if p.hydraulic then
      WaveForce(p, -speed, answer, init.force + p.zf * init.flow) + p.zf * speed
    else
      -WaveForce(p, speed, answer, init.force - p.zf * init.flow) + p.zf * speed
  }

  /** The answers worth remembering for damping. */
  function Remember(p: Params, damped: seq<Sample>, answer: Sample): seq<Sample> {
    if p.alpha > 0.0 && answer.time != TIME_WITHOUT_DATA then damped + [answer] else damped
  }

  // ---- sliding windows ----

  /** Dropping samples from the front as long as more than three remain and the third
      is older than the time still needed. */
  function Clean(d: seq<Sample>, time: real): (r: seq<Sample>)
    ensures |r| <= |d|
  {
    if |d| > 3 && time > d[2].time then Clean(d[1..], time) else d
  }

  /** What remains is the longest end of the queue of which no more may go: three samples are left,
      or the third one is still needed. */
  lemma {:induction false} CleanStops(d: seq<Sample>, time: real) returns (k: nat)
    ensures k <= |d| && Clean(d, time) == d[k..]
    ensures |d| - k <= 3 || time <= d[k + 2].time
    ensures k > 0 ==> |d| - k >= 3 && forall j :: 2 <= j < k + 2 ==> d[j].time < time
    decreases |d|
  {
    k := 0;
    if |d| > 3 && time > d[2].time {
      k := CleanStops(d[1..], time);
      assert d[1..][k..] == d[k + 1..];
      forall j | 2 <= j < k + 3 ensures d[j].time < time {
        if j > 2 {
          assert d[1..][j - 1] == d[j];
        }
      }
      k := k + 1;
    }
  }

  /** The same with the samples that have been dropped: they only change places. */
  function Slide(gone: seq<Sample>, w: seq<Sample>, time: real): (r: (seq<Sample>, seq<Sample>))
    ensures r.1 == Clean(w, time)
    decreases |w|
  {
    if |w| > 3 && time > w[2].time then Slide(gone + [w[0]], w[1..], time) else (gone, w)
  }

  /** Of the history `gone + w` the window `w` is all that requests from `time` on need. */
  ghost predicate Enough(gone: seq<Sample>, w: seq<Sample>, time: real) {
    gone == [] || (|w| >= 3 && w[1].time < time)
  }

  /** Cleaning moves samples out of the window but keeps what later requests need. */
  lemma {:induction false} CleanKeepsEnough(gone: seq<Sample>, w: seq<Sample>, before: real, time: real)
    requires Enough(gone, w, before) && before <= time
    ensures Slide(gone, w, time).0 + Slide(gone, w, time).1 == gone + w
    ensures Enough(Slide(gone, w, time).0, Slide(gone, w, time).1, time)
    decreases |w|
  {
    if |w| > 3 && time > w[2].time {
      CleanKeepsEnough(gone + [w[0]], w[1..], time, time);
      assert gone + [w[0]] + w[1..] == gone + w;
    }
  }

  lemma {:induction false} SlideWhole(gone: seq<Sample>, w: seq<Sample>, time: real)
      returns (r: (seq<Sample>, seq<Sample>))
    ensures r == Slide(gone, w, time) && r.0 + r.1 == gone + w
    decreases |w|
  {
    r := (gone, w);
    if |w| > 3 && time > w[2].time {
      r := SlideWhole(gone + [w[0]], w[1..], time);
      assert gone + [w[0]] + w[1..] == gone + w;
    }
  }

  /** Requests at or after the time of the window select the same samples from it as
      from the full history. */
  lemma WindowRefines(gone: seq<Sample>, w: seq<Sample>, time: real, request: real)
    requires OrderedStamps(gone + w) && Enough(gone, w, time) && time <= request
    ensures OrderedStamps(w) && (Determined(w, request) <==> Determined(gone + w, request))
    ensures Determined(w, request) ==> Select(w, request) == Select(gone + w, request)
  {
    OrderedSuffix(gone, w);
    if gone == [] {
      assert gone + w == w;
    } else {
      assert w[0].time <= w[1].time;
      WindowSelects(gone, w, request);
    }
  }

  /** The wave found at a time in a queue. */
  function WaveAt(d: seq<Sample>, time: real): real
    requires StrictStamps(d)
  {
    StrictDetermined(d, time);
    Reference(d, Sample(time, 0.0, 0.0, 0.0), false, 0.0).wave
  }

  /** Cleaning for any later time than that of the next request would change answers:
      some history then loses a sample which that request needs for its wave. */
  lemma CleanNoLater(time: real, later: real)
    requires time < later
    ensures exists d ::
      (StrictStamps(d) && StrictStamps(Clean(d, later)) && WaveAt(Clean(d, later), time) != WaveAt(d, time))
  {
    var gap := (later - time) / 3.0;
    var w := [Sample(time + gap, 0.0, 0.0, 0.0), Sample(time + 2.0 * gap, 0.0, 0.0, 0.0),
              Sample(later + 1.0, 0.0, 0.0, 0.0)];
    var d := [Sample(time - 1.0, 0.0, 0.0, 1.0)] + w;
    assert d[1..] == w && Clean(w, later) == w;
    assert d[2].time == time + 2.0 * gap < later;
    assert Clean(d, later) == w;
    assert StrictStamps(d) && StrictStamps(w);
    IntervalUnique(d, time, 0);
    assert WaveAt(d, time) == LinearInterpolate(time, time - 1.0, time + gap, 1.0, 0.0);
    BetweenOneAndZero(time, gap);
    assert WaveAt(w, time) == 0.0;
  }

  lemma BetweenOneAndZero(time: real, gap: real)
    requires 0.0 < gap
    ensures LinearInterpolate(time, time - 1.0, time + gap, 1.0, 0.0) != 0.0
  {
    assert (time - (time - 1.0)) * 0.0 - (time - (time + gap)) * 1.0 == gap;
  }

  // ---- stamps of answers ----

  function Later(a: real, b: real): real {
    if a <= b then b else a
  }

  /** The stamp of an answer lies between the first stamp and the request, or is the first
      stamp. */
  lemma StampBounds(p: Params, received: seq<Sample>, request: Sample)
    requires StrictStamps(received) && received != []
    ensures received[0].time <= Undamped(p, received, request).time <= Later(received[0].time, request.time)
  {
    assert received[0].time <= received[|received| - 1].time;
  }

  /** A request not beyond the data is answered with its own stamp, or with the stamp of
      the first sample when it lies before that. */
  lemma AnswerStamp(p: Params, received: seq<Sample>, request: Sample)
    requires StrictStamps(received)
    requires received != [] && request.time <= received[|received| - 1].time
    ensures Undamped(p, received, request).time
         == if request.time <= received[0].time then received[0].time else request.time
  {
    var d := received;
    if request.time == d[|d| - 1].time && |d| > 1 {
      assert d[0].time < d[|d| - 1].time;
    }
    if Inside(d, request.time) && request.time == d[0].time {
      IntervalUnique(d, request.time, 0);
    }
  }

  /** With requests that go forward and stay within the data, the next answer gets a
      stamp after the previous one exactly when it is not clamped to the first sample. */
  lemma StampAdvances(p: Params, received: seq<Sample>, damped: seq<Sample>, earlier: Sample, later: Sample)
    requires Answerable(p, received, damped, earlier) && Answerable(p, received, damped, later) && received != []
    requires earlier.time < later.time <= received[|received| - 1].time
    ensures Answer(p, received, damped, earlier).time < Answer(p, received, damped, later).time
      <==> received[0].time < later.time
  {
    AnswerStamp(p, received, earlier);
    AnswerStamp(p, received, later);
  }

  /** The stored answers end no later than the next one can be stamped. */
  ghost predicate Follows(received: seq<Sample>, damped: seq<Sample>, time: real) {
    && OrderedStamps(damped)
    && (damped != [] ==> received != [] && damped[|damped| - 1].time <= Later(received[0].time, time))
  }

  // ---- one interface over time ----

  /** What the answers of an interface depend on: its two windows and the samples dropped
      from them, the time of the last motion, and the interval remembered for both queues. */
  datatype History = History(gone: seq<Sample>, window: seq<Sample>, dampedGone: seq<Sample>,
                             dampedWindow: seq<Sample>, clock: real, index: nat)
  {
    function Received(): seq<Sample> { gone + window }
    function Damped(): seq<Sample> { dampedGone + dampedWindow }
  }

  datatype Event =
    | Arrived(samples: seq<Sample>)
    | Asked(time: real)
    | Moved(time: real)

  /** The undamped wave, searched in the window from the remembered interval. */
  function UndampedFrom(p: Params, h: History, time: real): Sample
    requires !Divides(h.window, RequestAt(p, time).time, h.index)
  {
    Fill(Found(h.window, RequestAt(p, time).time, h.index), RequestAt(p, time), false, p.origin)
  }

  /** The interval that the search for the undamped wave hands to the damped one. */
  function IndexBetween(p: Params, h: History, time: real): nat {
    LeftBehind(h.window, RequestAt(p, time).time, h.index)
  }

  /** One of the two lookups for the wave that acts at `time` divides by zero. */
  predicate Dividing(p: Params, h: History, time: real) {
    || Divides(h.window, RequestAt(p, time).time, h.index)
    || var r := UndampedFrom(p, h, time);
       UsesDamping(p, r, h.dampedWindow)
       && Divides(h.dampedWindow, DampedRequest(p, r).time, IndexBetween(p, h, time))
  }

  /** The wave that acts at `time`, from the windows. */
  function WindowAnswer(p: Params, h: History, time: real): Sample
    requires !Dividing(p, h, time)
  {
    var r := UndampedFrom(p, h, time);
    if UsesDamping(p, r, h.dampedWindow) then Mix(p, r, DampedFrom(p, h.dampedWindow, r, IndexBetween(p, h, time)))
    else r
  }

  function DampedFrom(p: Params, d: seq<Sample>, answer: Sample, index: nat): Sample
    requires !Divides(d, DampedRequest(p, answer).time, index)
  {
    Fill(Found(d, DampedRequest(p, answer).time, index), DampedRequest(p, answer), true, p.origin)
  }

  /** The interval that both lookups leave behind. */
  function IndexAfter(p: Params, h: History, time: real): nat
    requires !Dividing(p, h, time)
  {
    var r := UndampedFrom(p, h, time);
    if UsesDamping(p, r, h.dampedWindow) then
      LeftBehind(h.dampedWindow, DampedRequest(p, r).time, IndexBetween(p, h, time))
    else IndexBetween(p, h, time)
  }

  /** Between storing an answer and moving the clock. */
  function Stored(p: Params, h: History, time: real): History
    requires !Dividing(p, h, time)
  {
    h.(dampedWindow := Remember(p, h.dampedWindow, WindowAnswer(p, h, time)), index := IndexAfter(p, h, time))
  }

  function After(p: Params, h: History, e: Event): History
    requires !e.Arrived? ==> !Dividing(p, h, e.time)
  {
    match e
    case Arrived(samples) => h.(window := h.window + samples)
    case Asked(time) => h.(index := IndexAfter(p, h, time))
    case Moved(time) => Cleaned(p, Stored(p, h, time), time)
  }

  function Cleaned(p: Params, h: History, time: real): History {
    var (gone, window) := Slide(h.gone, h.window, time - p.delay);
    var (dampedGone, dampedWindow) := Slide(h.dampedGone, h.dampedWindow, time - p.delay - DampDelay(p.delay));
    History(gone, window, dampedGone, dampedWindow, time, h.index)
  }

  /** The windows hold all that is needed from the last motion on. */
  ghost predicate Holds(p: Params, h: History) {
    HoldsFor(p, h, h.clock)
  }

  /** The same, with stored answers up to the time `last`. */
  ghost predicate HoldsFor(p: Params, h: History, last: real) {
    && 0.0 < p.delay
    && StrictStamps(h.Received()) && Enough(h.gone, h.window, h.clock - p.delay)
    && Follows(h.Received(), h.Damped(), last - p.delay)
    && Enough(h.dampedGone, h.dampedWindow, h.clock - p.delay - DampDelay(p.delay))
  }

  /** A request that does not go back before the last motion, and with damping whose answer
      is not stamped before that motion either, so that the damped wave asked for is still in
      its window. */
  ghost predicate Grounded(p: Params, h: History, time: real)
    requires StrictStamps(h.Received())
  {
    && h.clock <= time
    && (p.alpha > 0.0 && h.Received() != [] ==>
          h.clock - p.delay <= Undamped(p, h.Received(), RequestAt(p, time)).time)
  }

  /** Requests within the data are always grounded. */
  lemma WithinDataGrounded(p: Params, h: History, time: real)
    requires StrictStamps(h.Received()) && h.clock <= time
    requires h.Received() != [] ==> time - p.delay <= h.Received()[|h.Received()| - 1].time
    ensures Grounded(p, h, time)
  {
    if h.Received() != [] {
      AnswerStamp(p, h.Received(), RequestAt(p, time));
    }
  }

  /** The undamped lookup never divides by zero and gives the reference answer. */
  lemma UndampedRefines(p: Params, h: History, time: real)
    requires Holds(p, h) && h.clock <= time
    ensures !Divides(h.window, RequestAt(p, time).time, h.index)
    ensures UndampedFrom(p, h, time) == Undamped(p, h.Received(), RequestAt(p, time))
  {
    var t := RequestAt(p, time).time;
    WindowRefines(h.gone, h.window, h.clock - p.delay, t);
    StrictDetermined(h.Received(), t);
    StrictSuffix(h.gone, h.window);
    StrictSound(h.window, t);
    NeverDegenerate(h.window, t);
    FoundIsSelect(h.window, t, h.index);
  }

  /** From windows that hold enough, a grounded request gets the answer of the full histories
      unless it divides by zero. */
  lemma AnswerRefines(p: Params, h: History, time: real)
    requires Holds(p, h) && Grounded(p, h, time) && !Dividing(p, h, time)
    ensures Answerable(p, h.Received(), h.Damped(), RequestAt(p, time))
    ensures WindowAnswer(p, h, time) == Answer(p, h.Received(), h.Damped(), RequestAt(p, time))
  {
    UndampedRefines(p, h, time);
    var r := UndampedFrom(p, h, time);
    assert h.dampedWindow == [] <==> h.Damped() == [];
    if UsesDamping(p, r, h.dampedWindow) {
      var q := DampedRequest(p, r).time;
      WindowRefines(h.dampedGone, h.dampedWindow, h.clock - p.delay - DampDelay(p.delay), q);
      FoundIsSelect(h.dampedWindow, q, IndexBetween(p, h, time));
    }
  }

  /** Without damping nothing divides by zero. */
  lemma UndampedNeverDivides(p: Params, h: History, time: real)
    requires Holds(p, h) && h.clock <= time && p.alpha <= 0.0
    ensures !Dividing(p, h, time)
  {
    UndampedRefines(p, h, time);
  }

  // ---- what every event keeps ----

  /** Storing the next answer keeps the stored ones ordered. */
  lemma RememberOrdered(p: Params, h: History, time: real)
    requires Follows(h.Received(), h.Damped(), h.clock - p.delay) && StrictStamps(h.Received()) && Grounded(p, h, time)
    requires Answerable(p, h.Received(), h.Damped(), RequestAt(p, time))
    ensures
      var answer := Answer(p, h.Received(), h.Damped(), RequestAt(p, time));
      Follows(h.Received(), Remember(p, h.Damped(), answer), time - p.delay)
  {
    if h.Received() != [] {
      StampBounds(p, h.Received(), RequestAt(p, time));
    }
  }

  /** Samples that only change places between what has been dropped and what is kept. */
  lemma HoldsSlid(p: Params, h: History, a: (seq<Sample>, seq<Sample>), b: (seq<Sample>, seq<Sample>), time: real)
    requires HoldsFor(p, h, time)
    requires a.0 + a.1 == h.gone + h.window && b.0 + b.1 == h.dampedGone + h.dampedWindow
    requires Enough(a.0, a.1, time - p.delay) && Enough(b.0, b.1, time - p.delay - DampDelay(p.delay))
    ensures
      var t := History(a.0, a.1, b.0, b.1, time, h.index);
      Holds(p, t) && t.Received() == h.Received() && t.Damped() == h.Damped()
  {
  }

  lemma FollowsMore(received: seq<Sample>, samples: seq<Sample>, damped: seq<Sample>, time: real)
    requires Follows(received, damped, time)
    ensures Follows(received + samples, damped, time)
  {
    assert received != [] ==> (received + samples)[0] == received[0];
  }

  lemma Regroup(a: seq<Sample>, b: seq<Sample>, c: seq<Sample>)
    ensures a + (b + c) == a + b + c
  {
  }

  lemma HoldsArrived(p: Params, h: History, samples: seq<Sample>)
    requires Holds(p, h) && StrictStamps(h.Received() + samples)
    ensures Holds(p, After(p, h, Arrived(samples)))
    ensures After(p, h, Arrived(samples)).Received() == h.Received() + samples
  {
    Regroup(h.gone, h.window, samples);
    FollowsMore(h.Received(), samples, h.Damped(), h.clock - p.delay);
  }

  lemma HoldsCleaned(p: Params, h: History, time: real)
    requires HoldsFor(p, h, time) && h.clock <= time
    ensures Holds(p, Cleaned(p, h, time))
    ensures Cleaned(p, h, time).Received() == h.Received() && Cleaned(p, h, time).Damped() == h.Damped()
  {
    var a, b := CleanedKeeps(p, h, time);
    HoldsSlid(p, h, a, b, time);
  }

  /** Cleaning sets the windows and only moves samples to those dropped. */
  lemma CleanedParts(p: Params, h: History, time: real) returns (t: History)
    ensures t == Cleaned(p, h, time) && t.clock == time && t.index == h.index
    ensures t.window == Clean(h.window, time - p.delay)
    ensures t.dampedWindow == Clean(h.dampedWindow, time - p.delay - DampDelay(p.delay))
    ensures t.gone + t.window == h.gone + h.window
    ensures t.dampedGone + t.dampedWindow == h.dampedGone + h.dampedWindow
  {
    var r := SlideWhole(h.gone, h.window, time - p.delay);
    var q := SlideWhole(h.dampedGone, h.dampedWindow, time - p.delay - DampDelay(p.delay));
    t := Cleaned(p, h, time);
  }

  lemma CleanedKeeps(p: Params, h: History, time: real)
      returns (a: (seq<Sample>, seq<Sample>), b: (seq<Sample>, seq<Sample>))
    requires Enough(h.gone, h.window, h.clock - p.delay) && h.clock <= time
    requires Enough(h.dampedGone, h.dampedWindow, h.clock - p.delay - DampDelay(p.delay))
    ensures Cleaned(p, h, time) == History(a.0, a.1, b.0, b.1, time, h.index)
    ensures a.0 + a.1 == h.gone + h.window && Enough(a.0, a.1, time - p.delay)
    ensures b.0 + b.1 == h.dampedGone + h.dampedWindow && Enough(b.0, b.1, time - p.delay - DampDelay(p.delay))
  {
    var u := DampDelay(p.delay);
    a := Slide(h.gone, h.window, time - p.delay);
    b := Slide(h.dampedGone, h.dampedWindow, time - p.delay - u);
    CleanKeepsEnough(h.gone, h.window, h.clock - p.delay, time - p.delay);
    CleanKeepsEnough(h.dampedGone, h.dampedWindow, h.clock - p.delay - u, time - p.delay - u);
  }

  lemma RememberIn(p: Params, gone: seq<Sample>, d: seq<Sample>, answer: Sample)
    ensures gone + Remember(p, d, answer) == Remember(p, gone + d, answer)
  {
    Regroup(gone, d, [answer]);
  }

  lemma HoldsStored(p: Params, h: History, time: real)
    requires Holds(p, h) && Grounded(p, h, time) && !Dividing(p, h, time)
    requires Answerable(p, h.Received(), h.Damped(), RequestAt(p, time))
    ensures
      var g := Stored(p, h, time);
      && HoldsFor(p, g, time) && g.Received() == h.Received()
      && g.Damped() == Remember(p, h.Damped(), Answer(p, h.Received(), h.Damped(), RequestAt(p, time)))
  {
    AnswerRefines(p, h, time);
    RememberIn(p, h.dampedGone, h.dampedWindow, WindowAnswer(p, h, time));
    RememberOrdered(p, h, time);
  }

  lemma HoldsMoved(p: Params, h: History, time: real)
    requires Holds(p, h) && Grounded(p, h, time) && !Dividing(p, h, time)
    ensures Answerable(p, h.Received(), h.Damped(), RequestAt(p, time))
    ensures
      var t := After(p, h, Moved(time));
      && Holds(p, t) && t.Received() == h.Received()
      && t.Damped() == Remember(p, h.Damped(), Answer(p, h.Received(), h.Damped(), RequestAt(p, time)))
  {
    AnswerRefines(p, h, time);
    HoldsStored(p, h, time);
    HoldsCleaned(p, Stored(p, h, time), time);
  }

  /** Arriving samples that continue the stamps, and calls that are grounded, keep all that
      later requests need. */
  lemma HoldsAfter(p: Params, h: History, e: Event)
    requires Holds(p, h)
    requires e.Arrived? ==> StrictStamps(h.Received() + e.samples)
    requires !e.Arrived? ==> Grounded(p, h, e.time) && !Dividing(p, h, e.time)
    ensures Holds(p, After(p, h, e))
  {
    match e
    case Arrived(samples) => HoldsArrived(p, h, samples);
    case Asked(time) => assert After(p, h, e).Received() == h.Received() && After(p, h, e).Damped() == h.Damped();
    case Moved(time) => HoldsMoved(p, h, time);
  }

  /** Motion leaves in each window three samples, or more only if the third is still needed; and
      without damping it stores nothing. */
  lemma WindowsStaySmall(p: Params, h: History, time: real)
    requires !Dividing(p, h, time)
    ensures
      var t := After(p, h, Moved(time));
      && t.clock == time && t.index == After(p, h, Asked(time)).index
      && (|t.window| <= 3 || time - p.delay <= t.window[2].time)
      && (|t.dampedWindow| <= 3 || time - 2.5 * p.delay <= t.dampedWindow[2].time)
      && (p.alpha <= 0.0 ==> t.Damped() == h.Damped())
  {
    var g := Stored(p, h, time);
    var k := CleanStops(g.window, time - p.delay);
    var l := CleanStops(g.dampedWindow, time - p.delay - DampDelay(p.delay));
    var t := CleanedParts(p, g, time);
  }
}
