/** Time-stamped wave samples exchanged between two ends of a connection, and
    the orderings of stamps that the rest of the project relies on. */
module Samples {

  /** One entry of the data a one-dimensional interface sends to its peer. */
  datatype Sample = Sample(time: real, position: real, velocity: real, wave: real)

  /** Stamps never repeat and never go back. */
  ghost predicate StrictStamps(d: seq<Sample>) {
    forall i, j :: 0 <= i < j < |d| ==> d[i].time < d[j].time
  }

  /** Stamps never go back, but may repeat. */
  ghost predicate OrderedStamps(d: seq<Sample>) {
    forall i, j :: 0 <= i < j < |d| ==> d[i].time <= d[j].time
  }

  /** The stamp of the newest sample, or a default when there is none. */
  function LastStamp(d: seq<Sample>, default: real): real {
    if d == [] then default else d[|d| - 1].time
  }
}
