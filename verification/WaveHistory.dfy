/** Looking up a wave at a given time in a list of samples: the reference that
    searches the whole history, the search that starts from a remembered interval,
    and the facts that make the second agree with the first. */
module WaveHistory {
  import opened Samples

  /** The stamp that marks "no data received yet". */
  const TIME_WITHOUT_DATA: real := -111111.0

  /** Two times closer than this count as equal at the end of the data. */
  const TOLERANCE: real := 0.0000000001

  /** The damped wave is taken one and a half delays before the undamped one. */
  function DampDelay(delay: real): real {
    delay * 1.5
  }

  /** The value at `time` on the straight line through two points. */
  function LinearInterpolate(time: real, t0: real, t1: real, f0: real, f1: real): real
    requires t0 != t1
  {
    ((time - t0) * f1 - (time - t1) * f0) / (t1 - t0)
  }

  /** The sample at the time of `instance` on the line through two samples. Only the
      wave is filled in when `onlyForce` is set. */
  function Interpolate(instance: Sample, p0: Sample, p1: Sample, onlyForce: bool): Sample
    requires p0.time != p1.time
  {
    var r := instance.(wave := LinearInterpolate(instance.time, p0.time, p1.time, p0.wave, p1.wave));
    if onlyForce then r
    else r.(position := LinearInterpolate(instance.time, p0.time, p1.time, p0.position, p1.position),
            velocity := LinearInterpolate(instance.time, p0.time, p1.time, p0.velocity, p1.velocity))
  }

  /** The time lies within the data, before the last sample. */
  predicate Inside(d: seq<Sample>, time: real) {
    d != [] && d[0].time <= time < d[|d| - 1].time
  }

  /** Linear search from the front for the interval that holds the time. */
  function Interval(d: seq<Sample>, time: real): (i: nat)
    requires Inside(d, time)
    ensures i + 1 < |d| && d[i].time <= time < d[i + 1].time
  {
    if time < d[1].time then 0 else Interval(d[1..], time) + 1
  }

  /** At most one sample carries the stamp `time`. */
  ghost predicate Unrepeated(d: seq<Sample>, time: real) {
    forall i, j :: 0 <= i < j < |d| ==> !(d[i].time == time && d[j].time == time)
  }

  /** The answer from the whole history exists: beyond the end of the data it needs the last
      two stamps to differ. */
  predicate Determined(d: seq<Sample>, time: real) {
    || d == [] || time <= d[0].time || time <= d[|d| - 1].time + TOLERANCE
    || |d| < 2 || d[|d| - 2].time != d[|d| - 1].time
  }

  /** A lookup at `time` never divides by zero: inside the data the time is not a repeated
      stamp, and beyond its end the last two stamps differ. */
  ghost predicate Sound(d: seq<Sample>, time: real) {
    Determined(d, time) && (Inside(d, time) ==> Unrepeated(d, time))
  }

  /** Which samples a request is answered from. */
  datatype Selection =
    | Nothing
    | One(sample: Sample)
    | Two(first: Sample, second: Sample)

  /** The choice outside the data: the first sample before it, the last sample just after
      it, and the last interval further on. */
  function Outside(d: seq<Sample>, time: real): (s: Selection)
    requires !Inside(d, time) && Determined(d, time)
    ensures s.Two? ==> s.first.time != s.second.time
  {
    var n := |d|;
    if n == 0 then Nothing
    else if time <= d[0].time then One(d[0])
    else if time <= d[n - 1].time + TOLERANCE then One(d[n - 1])
    else if n > 1 then Two(d[n - 2], d[n - 1])
    else One(d[0])
  }

  /** The choice made by searching all of `d` from the front: inside the data the enclosing
      interval. */
  function Select(d: seq<Sample>, time: real): (s: Selection)
    requires Determined(d, time)
    ensures s.Two? ==> s.first.time != s.second.time
  {
    if Inside(d, time) then Two(d[Interval(d, time)], d[Interval(d, time) + 1]) else Outside(d, time)
  }

  /** The answer built from the selected samples. Before any data the wave is zero and
      the position is the nominal one, `origin`. */
  function Fill(s: Selection, instance: Sample, onlyForce: bool, origin: real): Sample
    requires s.Two? ==> s.first.time != s.second.time
  {
    match s
    case Nothing => instance.(wave := 0.0, position := origin, time := TIME_WITHOUT_DATA)
    case One(p) => p
    case Two(p0, p1) => Interpolate(instance, p0, p1, onlyForce)
  }

  /** The answer to a request from the whole history `d`. */
  function Reference(d: seq<Sample>, instance: Sample, onlyForce: bool, origin: real): Sample
    requires Determined(d, instance.time)
  {
    Fill(Select(d, instance.time), instance, onlyForce, origin)
  }

  /** With strictly increasing stamps every lookup is sound. */
  lemma StrictSound(d: seq<Sample>, time: real)
    requires StrictStamps(d)
    ensures OrderedStamps(d) && Sound(d, time)
  {
  }

  /** With strictly increasing stamps every request has a reference answer. */
  lemma StrictDetermined(d: seq<Sample>, time: real)
    requires StrictStamps(d)
    ensures Determined(d, time)
  {
  }

  lemma IntervalUnique(d: seq<Sample>, time: real, i: nat)
    requires OrderedStamps(d) && Inside(d, time)
    requires i + 1 < |d| && d[i].time <= time < d[i + 1].time
    ensures i == Interval(d, time)
  {
  }

  // ---- the search from a remembered interval ----

  function Ascend(d: seq<Sample>, time: real, i: nat): (r: nat)
    requires i < |d| && time <= d[|d| - 1].time
    ensures i <= r < |d| && time <= d[r].time
    ensures i < r ==> d[r - 1].time < time
    decreases |d| - i
  {
    if d[i].time < time then Ascend(d, time, i + 1) else i
  }

  function Descend(d: seq<Sample>, time: real, i: nat): (r: nat)
    requires i < |d| && d[0].time <= time
    ensures r <= i && d[r].time <= time
    ensures r < i ==> time < d[r + 1].time
  {
    if time < d[i].time then Descend(d, time, i - 1) else i
  }

  /** Where the search starts for a remembered interval that may be gone. */
  function Start(d: seq<Sample>, hint: nat): (i: nat)
    requires d != []
    ensures i < |d|
  {
    if hint >= |d| then |d| - 1 else hint
  }

  /** Where the search ends when it starts from the interval `hint`. */
  function Hinted(d: seq<Sample>, time: real, hint: nat): (i: nat)
    requires Inside(d, time)
    ensures i + 1 < |d|
  {
    Descend(d, time, Ascend(d, time, Start(d, hint)))
  }

  /** The interval that a lookup remembers for the next one. */
  function LeftBehind(d: seq<Sample>, time: real, hint: nat): nat {
    if d == [] then hint else if Inside(d, time) then Hinted(d, time, hint) else Start(d, hint)
  }

  /** The lookup that starts from the interval `hint` interpolates between samples of equal
      stamps. */
  predicate Divides(d: seq<Sample>, time: real, hint: nat) {
    if Inside(d, time) then d[Hinted(d, time, hint)].time == d[Hinted(d, time, hint) + 1].time
    else !Determined(d, time)
  }

  /** The choice made by the search from the interval `hint`. */
  function Found(d: seq<Sample>, time: real, hint: nat): (s: Selection)
    requires !Divides(d, time, hint)
    ensures s.Two? ==> s.first.time != s.second.time
  {
    if Inside(d, time) then Two(d[Hinted(d, time, hint)], d[Hinted(d, time, hint) + 1]) else Outside(d, time)
  }

  /** The two search loops, starting from any remembered interval, stay in bounds. */
  method FindInterval(d: seq<Sample>, time: real, hint: nat) returns (i: nat)
    requires Inside(d, time) && hint < |d|
    ensures i == Hinted(d, time, hint) && i + 1 < |d|
  {
    i := hint;
    while d[i].time < time
      invariant i < |d| && Ascend(d, time, i) == Ascend(d, time, hint)
      decreases |d| - i
    {
      i := i + 1;
    }
    ghost var top := i;
    while d[i].time > time
      invariant i < |d| && Descend(d, time, i) == Descend(d, time, top)
      decreases i
    {
      i := i - 1;
    }
  }

  /** Inside the data the search divides by zero exactly when the interval it starts from
      lies before the last repetition of the requested stamp. */
  lemma DividesExactly(d: seq<Sample>, time: real, hint: nat)
    requires OrderedStamps(d) && Inside(d, time)
    ensures Divides(d, time, hint) <==>
      exists m :: Start(d, hint) < m < |d| && d[m - 1].time == time && d[m].time == time
  {
    var top := Ascend(d, time, Start(d, hint));
    var i := Hinted(d, time, hint);
    if d[top].time == time {
      assert i == top && d[top].time <= d[top + 1].time;
      if m :| Start(d, hint) < m < |d| && d[m - 1].time == time && d[m].time == time {
        assert top < m;
        assert d[top + 1].time <= d[m].time;
      }
    } else {
      assert i < top && d[i].time <= time < d[i + 1].time;
    }
  }

  /** An interval remembered from beyond the data, or from its end, divides by nothing inside it. */
  lemma BeyondNeverDivides(d: seq<Sample>, time: real, hint: nat)
    requires OrderedStamps(d) && Inside(d, time) && hint + 1 >= |d|
    ensures !Divides(d, time, hint)
  {
    DividesExactly(d, time, hint);
  }

  /** What a lookup leaves behind is a sample of the queue; outside the data only an interval that
      the queue does not have is changed, to the last sample. */
  lemma LeavesInside(d: seq<Sample>, time: real, hint: nat)
    requires d != []
    ensures LeftBehind(d, time, hint) < |d|
    ensures !Inside(d, time) && hint < |d| ==> LeftBehind(d, time, hint) == hint
    ensures !Inside(d, time) && hint >= |d| ==> LeftBehind(d, time, hint) == |d| - 1
  {
  }

  /** Inside the data the search ends where the linear search ends exactly when it does not
      divide by zero. */
  lemma HintedIsLinear(d: seq<Sample>, time: real, hint: nat)
    requires OrderedStamps(d) && Inside(d, time)
    ensures Hinted(d, time, hint) == Interval(d, time) <==> !Divides(d, time, hint)
  {
    var top := Ascend(d, time, Start(d, hint));
    var i := Hinted(d, time, hint);
    if !Divides(d, time, hint) {
      assert d[i].time <= d[i + 1].time;
      IntervalUnique(d, time, i);
    }
  }

  /** A search that does not divide by zero selects what the search of everything selects. */
  lemma FoundIsSelect(d: seq<Sample>, time: real, hint: nat)
    requires OrderedStamps(d) && !Divides(d, time, hint)
    ensures Determined(d, time) && Found(d, time, hint) == Select(d, time)
  {
    if Inside(d, time) {
      HintedIsLinear(d, time, hint);
    }
  }

  /** At a time that is no repeated stamp the remembered interval does not matter: the
      search ends where the linear search ends. */
  lemma HintIndependence(d: seq<Sample>, time: real, hint: nat)
    requires OrderedStamps(d) && Inside(d, time) && Unrepeated(d, time)
    ensures !Divides(d, time, hint) && Hinted(d, time, hint) == Interval(d, time)
  {
    DividesExactly(d, time, hint);
    HintedIsLinear(d, time, hint);
  }

  /** With stamps that may repeat, no remembered interval makes a lookup divide by zero
      exactly when the lookup is sound: the requested time is no repeated stamp inside the
      data, and beyond its end the last two stamps differ. */
  lemma NeverDegenerate(d: seq<Sample>, time: real)
    requires OrderedStamps(d)
    ensures (forall hint: nat :: !Divides(d, time, hint)) <==> Sound(d, time)
  {
    if Inside(d, time) {
      if Unrepeated(d, time) {
        forall hint: nat ensures !Divides(d, time, hint) {
          HintIndependence(d, time, hint);
        }
      } else {
        var i, j :| 0 <= i < j < |d| && d[i].time == time && d[j].time == time;
        assert d[i].time <= d[i + 1].time <= d[j].time;
        assert d[(i + 1) - 1].time == time;
        DividesExactly(d, time, i);
        assert Divides(d, time, i);
      }
    } else if !Sound(d, time) {
      assert Divides(d, time, 0);
    }
  }

  // ---- windows ----

  lemma IntervalInWindow(gone: seq<Sample>, w: seq<Sample>, time: real)
    requires OrderedStamps(gone + w) && Inside(w, time)
    ensures Inside(gone + w, time) && Interval(gone + w, time) == |gone| + Interval(w, time)
  {
    var d := gone + w;
    assert d[|gone|] == w[0] && d[|d| - 1] == w[|w| - 1];
    assert gone != [] ==> d[0].time <= d[|gone|].time;
    var i := Interval(w, time);
    assert d[|gone| + i] == w[i] && d[|gone| + i + 1] == w[i + 1];
    IntervalUnique(d, time, |gone| + i);
  }

  /** A request after the first of at least two remaining samples is as sound for the
      remaining ones as for the full history. */
  lemma WindowSound(gone: seq<Sample>, w: seq<Sample>, time: real)
    requires OrderedStamps(gone + w) && OrderedStamps(w) && |w| >= 2 && w[0].time < time
    ensures Sound(w, time) <==> Sound(gone + w, time)
  {
    var d := gone + w;
    assert d[|gone|] == w[0] && d[|d| - 1] == w[|w| - 1] && d[|d| - 2] == w[|w| - 2];
    assert gone != [] ==> d[0].time <= d[|gone|].time;
    assert forall i :: 0 <= i < |gone| ==> d[i].time <= d[|gone|].time;
    if Unrepeated(w, time) {
      forall i, j | 0 <= i < j < |d|
        ensures !(d[i].time == time && d[j].time == time)
      {
        if |gone| <= i {
          assert d[i] == w[i - |gone|] && d[j] == w[j - |gone|];
        }
      }
    }
    if Unrepeated(d, time) {
      assert forall i :: 0 <= i < |w| ==> w[i] == d[|gone| + i];
    }
  }

  lemma WindowDetermined(gone: seq<Sample>, w: seq<Sample>, time: real)
    requires OrderedStamps(gone + w) && |w| >= 2 && w[0].time < time
    ensures Determined(w, time) <==> Determined(gone + w, time)
  {
    var d := gone + w;
    assert d[|gone|] == w[0] && d[|d| - 1] == w[|w| - 1] && d[|d| - 2] == w[|w| - 2];
    assert gone != [] ==> d[0].time <= d[|gone|].time;
  }

  /** Such a request selects the same samples from the remaining ones as from the full
      history. */
  lemma WindowSelects(gone: seq<Sample>, w: seq<Sample>, time: real)
    requires OrderedStamps(gone + w) && OrderedStamps(w) && |w| >= 2 && w[0].time < time
    ensures Determined(w, time) <==> Determined(gone + w, time)
    ensures Determined(w, time) ==> Select(w, time) == Select(gone + w, time)
  {
    WindowDetermined(gone, w, time);
    if time < w[|w| - 1].time {
      var i := Interval(w, time);
      IntervalInWindow(gone, w, time);
      assert (gone + w)[|gone| + i] == w[i] && (gone + w)[|gone| + i + 1] == w[i + 1];
    } else if Determined(w, time) {
      SelectsBehind(gone, w, time);
    }
  }

  lemma SelectsBehind(gone: seq<Sample>, w: seq<Sample>, time: real)
    requires OrderedStamps(gone + w) && OrderedStamps(w) && |w| >= 2 && w[|w| - 1].time <= time
    requires w[0].time < time && Determined(gone + w, time) && Determined(w, time)
    ensures Select(w, time) == Select(gone + w, time)
  {
    var d := gone + w;
    assert d[|gone|] == w[0] && d[|d| - 1] == w[|w| - 1] && d[|d| - 2] == w[|w| - 2];
    assert d[0].time <= d[|gone|].time;
  }

  /** The later part of a history without repeated stamps is another one. */
  lemma StrictSuffix(gone: seq<Sample>, w: seq<Sample>)
    requires StrictStamps(gone + w)
    ensures StrictStamps(w)
  {
    forall i, j | 0 <= i < j < |w| ensures w[i].time < w[j].time {
      assert w[i] == (gone + w)[|gone| + i] && w[j] == (gone + w)[|gone| + j];
    }
  }

  /** The later part of an ordered history is ordered. */
  lemma OrderedSuffix(gone: seq<Sample>, w: seq<Sample>)
    requires OrderedStamps(gone + w)
    ensures OrderedStamps(w)
  {
    forall i, j | 0 <= i < j < |w| ensures w[i].time <= w[j].time {
      assert w[i] == (gone + w)[|gone| + i] && w[j] == (gone + w)[|gone| + j];
    }
  }

  /** The answer to a request covered by the data does not depend on how much more
      data has arrived already: neither the schedule of the components nor the order
      of messages can change it. */
  lemma DeliveryIndependent(d: seq<Sample>, m: nat, instance: Sample, origin: real)
    requires StrictStamps(d) && 0 < m <= |d|
    requires d[0].time <= instance.time <= d[m - 1].time
    ensures StrictStamps(d[..m])
    ensures Reference(d[..m], instance, false, origin) == Reference(d, instance, false, origin)
  {
    var w := d[..m];
    var time := instance.time;
    if time < d[m - 1].time {
      var i := Interval(w, time);
      assert d[m - 1].time <= d[|d| - 1].time;
      IntervalUnique(d, time, i);
    } else {
      assert time == d[m - 1].time == w[m - 1].time;
      ExactHit(w, m - 1, instance, origin);
      ExactHit(d, m - 1, instance, origin);
    }
  }

  /** Interpolation at the first of the two stamps gives the first sample. */
  lemma OnTheStamp(p0: Sample, p1: Sample, instance: Sample)
    requires p0.time < p1.time && instance.time == p0.time
    ensures Interpolate(instance, p0, p1, false) == p0
  {
    AtFirstPoint(p0.time, p1.time, p0.wave, p1.wave);
    AtFirstPoint(p0.time, p1.time, p0.position, p1.position);
    AtFirstPoint(p0.time, p1.time, p0.velocity, p1.velocity);
  }

  lemma AtFirstPoint(t0: real, t1: real, f0: real, f1: real)
    requires t0 != t1
    ensures LinearInterpolate(t0, t0, t1, f0, f1) == f0
  {
    var w := t1 - t0;
    assert (t0 - t0) * f1 - (t0 - t1) * f0 == w * f0;
    assert w * f0 / w == f0;
  }

  /** A request exactly at the stamp of a received sample returns that sample. */
  lemma ExactHit(d: seq<Sample>, k: nat, instance: Sample, origin: real)
    requires StrictStamps(d) && k < |d| && instance.time == d[k].time
    ensures Reference(d, instance, false, origin) == d[k]
  {
    if k + 1 < |d| {
      assert d[0].time <= d[k].time < d[k + 1].time <= d[|d| - 1].time;
      IntervalUnique(d, instance.time, k);
      OnTheStamp(d[k], d[k + 1], instance);
    } else if k > 0 {
      assert d[0].time < d[k].time;
    }
  }
}
