/** The co-simulation time protocol: several components, each running a fixed
    program of "get force" and "set motion" calls against its interfaces, exchange
    packets of samples through a manager that re-addresses and queues them.

    The manager owns one inbound stream per component (`up`), one queue of packets
    to be written (`queue`) and one outbound stream per component (`down`). */
module TimeProtocol {
  import opened Samples

  /** A time-data message: the interface it is addressed to and its samples. */
  datatype Packet = Packet(ifc: nat, samples: seq<Sample>)

  /** One call of a solver into the plug-in. */
  datatype Op =
    | GetForce(ifc: nat, time: real)
    | SetMotion(ifc: nat, time: real)

  /** What one end of a connection remembers. The last three fields are histories:
      every sample ever given to the interface, every sample it ever put into a
      packet, and every sample it ever received. */
  datatype Ifc = Ifc(
    lastSend: real,
    nextRecv: real,
    buffer: seq<Sample>,
    offered: seq<Sample>,
    sent: seq<Sample>,
    unpacked: seq<Sample>)

  /** The composite model as seen by the protocol. `step` is the longest step of a
      component and `equidistant` tells that its solver takes all its steps with
      exactly that length. */
  datatype Config = Config(
    startTime: real,
    endTime: real,
    owner: seq<nat>,
    linked: seq<nat>,
    delay: seq<real>,
    program: seq<seq<Op>>,
    step: seq<real>,
    equidistant: seq<bool>)
  {
    /** The interfaces are paired by connections of one positive delay each. */
    ghost predicate Wired() {
      && |owner| == |linked| == |delay|
      && |program| == |step| == |equidistant|
      && (forall i :: 0 <= i < |owner| ==> owner[i] < |program|)
      && (forall i :: 0 <= i < |linked| ==> linked[i] < |linked|)
      && (forall i :: 0 <= i < |linked| ==> linked[linked[i]] == i)
      && (forall i :: 0 <= i < |delay| ==> 0.0 < delay[i] && delay[linked[i]] == delay[i])
    }

    /** No step is longer than what the start-up limit of the component allows:
        half of each delay, or a whole delay when all steps have equal length. */
    ghost predicate StepsWithinLimit()
      requires Wired()
    {
      forall i :: 0 <= i < |owner| ==>
        0.0 < step[owner[i]] <= if equidistant[owner[i]] then delay[i] else delay[i] / 2.0
    }

    /** The time of the last motion set on `i` among the first `k` calls of `c`. */
    function LastSet(c: nat, k: nat, i: nat): real
      requires c < |program| && k <= |program[c]|
    {
      if k == 0 then startTime
      else if program[c][k - 1] == SetMotion(i, program[c][k - 1].time) then program[c][k - 1].time
      else LastSet(c, k - 1, i)
    }

    /** Every call of a component is at most one step ahead of the last motion set
        on each of its interfaces, and motion is set at ever later times. */
    ghost predicate PacedCall(c: nat, k: nat, i: nat)
      requires Wired() && c < |program| && k < |program[c]|
    {
      var op := program[c][k];
      var last := LastSet(c, k, i);
      && last <= op.time <= last + step[c]
      && (op == SetMotion(i, op.time) ==> last < op.time)
      && (op == SetMotion(i, op.time) && equidistant[c] ==> op.time == last + step[c])
    }

    ghost predicate Paced()
      requires Wired()
    {
      && (forall c, k :: 0 <= c < |program| && 0 <= k < |program[c]| ==>
            program[c][k].ifc < |owner| && owner[program[c][k].ifc] == c)
      && (forall i, k :: 0 <= i < |owner| && 0 <= k < |program[owner[i]]| ==> PacedCall(owner[i], k, i))
    }

    /** All interfaces are simulated up to the end time, and no call goes further
        past it than half the delay of any interface of its component. */
    ghost predicate ReachesEnd()
      requires Wired()
    {
      && (forall i :: 0 <= i < |owner| ==> endTime <= LastSet(owner[i], |program[owner[i]]|, i))
      && (forall i, k :: 0 <= i < |owner| && 0 <= k < |program[owner[i]]| ==>
            program[owner[i]][k].time <= endTime + delay[i] / 2.0)
    }

    /** What safety needs: connections of positive delay and steps within the limits. */
    ghost predicate Disciplined() {
      Wired() && StepsWithinLimit() && Paced()
    }

    ghost predicate WellFormed() {
      Disciplined() && ReachesEnd()
    }
  }

  datatype State = State(
    pc: seq<nat>,
    ifc: seq<Ifc>,
    up: seq<seq<Packet>>,
    queue: seq<Packet>,
    down: seq<seq<Packet>>)

  function Init(cfg: Config): State {
    State(
      seq(|cfg.program|, _ => 0),
      seq(|cfg.delay|, i requires 0 <= i < |cfg.delay| =>
        Ifc(cfg.startTime, cfg.startTime + cfg.delay[i], [], [], [], [])),
      seq(|cfg.program|, _ => []),
      [],
      seq(|cfg.program|, _ => []))
  }

  /** The scheduler's choices: which component or manager thread moves next, and
      for a motion call which values the solver computed. */
  datatype Action =
    | Return(comp: nat)
    | Refuse(comp: nat)
    | Receive(comp: nat)
    | Motion(comp: nat, sample: Sample)
    | Relay(comp: nat)
    | Write

  /** The sizes of the state fit the configuration and all addresses are valid. */
  ghost predicate Shaped(cfg: Config, s: State)
    requires cfg.Wired()
  {
    && |s.pc| == |s.up| == |s.down| == |cfg.program|
    && |s.ifc| == |cfg.owner|
    && (forall c :: 0 <= c < |s.pc| ==> s.pc[c] <= |cfg.program[c]|)
    && (forall c, k :: 0 <= c < |s.up| && 0 <= k < |s.up[c]| ==> Addressed(cfg, s.up[c][k], c))
    && (forall c, k :: 0 <= c < |s.down| && 0 <= k < |s.down[c]| ==> Addressed(cfg, s.down[c][k], c))
    && (forall k :: 0 <= k < |s.queue| ==>
          s.queue[k].ifc < |cfg.owner| && Addressed(cfg, s.queue[k], cfg.owner[s.queue[k].ifc]))
  }

  /** A packet on a stream of component `c` names an interface of `c` and is not empty. */
  ghost predicate Addressed(cfg: Config, p: Packet, c: nat) {
    p.ifc < |cfg.owner| && cfg.owner[p.ifc] == c && p.samples != []
  }

  predicate Running(cfg: Config, s: State, c: nat) {
    c < |s.pc| && c < |cfg.program| && s.pc[c] < |cfg.program[c]|
  }

  function Pending(cfg: Config, s: State, c: nat): Op
    requires Running(cfg, s, c)
  {
    cfg.program[c][s.pc[c]]
  }

  predicate Done(cfg: Config, s: State) {
    forall c :: 0 <= c < |cfg.program| ==> !Running(cfg, s, c)
  }

  /** The pending call asks for a force at a time not yet covered by received data. */
  predicate Starved(cfg: Config, s: State, c: nat)
    requires Running(cfg, s, c)
  {
    var op := Pending(cfg, s, c);
    op.GetForce? && op.ifc < |s.ifc| && s.ifc[op.ifc].nextRecv < op.time
  }

  /** The guard against asking for data later than what the own sent data allows. */
  predicate NotAllowed(cfg: Config, s: State, c: nat)
    requires Running(cfg, s, c)
  {
    var op := Pending(cfg, s, c);
    op.ifc < |s.ifc| && op.ifc < |cfg.delay| && s.ifc[op.ifc].lastSend + cfg.delay[op.ifc] < op.time
  }

  predicate Enabled(cfg: Config, s: State, a: Action) {
    match a
    case Return(c) => Running(cfg, s, c) && Pending(cfg, s, c).GetForce? && !Starved(cfg, s, c)
    case Refuse(c) => Running(cfg, s, c) && Starved(cfg, s, c) && NotAllowed(cfg, s, c)
    case Receive(c) =>
      && Running(cfg, s, c) && Starved(cfg, s, c) && !NotAllowed(cfg, s, c)
      && c < |s.down| && s.down[c] != [] && s.down[c][0].samples != []
      && s.down[c][0].ifc < |s.ifc| && s.down[c][0].ifc < |cfg.delay|
    case Motion(c, x) =>
      && Running(cfg, s, c) && Pending(cfg, s, c) == SetMotion(Pending(cfg, s, c).ifc, x.time)
      && Pending(cfg, s, c).ifc < |s.ifc| && Pending(cfg, s, c).ifc < |cfg.delay| && c < |s.up|
    case Relay(c) => c < |s.up| && s.up[c] != [] && s.up[c][0].ifc < |cfg.linked|
    case Write =>
      s.queue != [] && s.queue[0].ifc < |cfg.owner| && cfg.owner[s.queue[0].ifc] < |s.down|
  }

  /** Storing received samples moves the time up to which requests are covered. */
  function Unpack(f: Ifc, delay: real, samples: seq<Sample>): Ifc
    requires samples != []
  {
    f.(unpacked := f.unpacked + samples, nextRecv := samples[|samples| - 1].time + delay)
  }

  /** The send buffer is due once half a delay has passed since the last sending. */
  predicate Due(f: Ifc, delay: real, time: real) {
    f.lastSend + delay / 2.0 <= time
  }

  /** Setting motion stores a sample and empties the buffer when it is due. */
  function Offer(f: Ifc, delay: real, x: Sample): Ifc {
    var g := f.(offered := f.offered + [x], buffer := f.buffer + [x]);
    if Due(f, delay, x.time) then g.(lastSend := x.time, sent := f.sent + g.buffer, buffer := []) else g
  }

  /** The packets sent by setting motion. */
  function Sending(f: Ifc, delay: real, i: nat, x: Sample): seq<Packet> {
    if Due(f, delay, x.time) then [Packet(i, f.buffer + [x])] else []
  }

  function Apply(cfg: Config, s: State, a: Action): State
    requires Enabled(cfg, s, a)
  {
    match a
    case Return(c) => s.(pc := s.pc[c := s.pc[c] + 1])
    case Refuse(c) => s.(pc := s.pc[c := s.pc[c] + 1])
    case Receive(c) =>
      var p := s.down[c][0];
      s.(down := s.down[c := s.down[c][1..]],
         ifc := s.ifc[p.ifc := Unpack(s.ifc[p.ifc], cfg.delay[p.ifc], p.samples)])
    case Motion(c, x) =>
      var i := Pending(cfg, s, c).ifc;
      s.(pc := s.pc[c := s.pc[c] + 1],
         ifc := s.ifc[i := Offer(s.ifc[i], cfg.delay[i], x)],
         up := s.up[c := s.up[c] + Sending(s.ifc[i], cfg.delay[i], i, x)])
    case Relay(c) =>
      var p := s.up[c][0];
      s.(up := s.up[c := s.up[c][1..]], queue := s.queue + [p.(ifc := cfg.linked[p.ifc])])
    case Write =>
      var p := s.queue[0];
      var d := cfg.owner[p.ifc];
      s.(queue := s.queue[1..], down := s.down[d := s.down[d] + [p]])
  }

  /** A run is a list of choices, each enabled in the state reached before it. */
  predicate Legal(cfg: Config, s: State, run: seq<Action>)
    decreases |run|
  {
    run == [] || (Enabled(cfg, s, run[0]) && Legal(cfg, Apply(cfg, s, run[0]), run[1..]))
  }

  function Exec(cfg: Config, s: State, run: seq<Action>): State
    requires Legal(cfg, s, run)
    decreases |run|
  {
    if run == [] then s else Exec(cfg, Apply(cfg, s, run[0]), run[1..])
  }

  ghost predicate Reachable(cfg: Config, s: State) {
    exists run :: Legal(cfg, Init(cfg), run) && Exec(cfg, Init(cfg), run) == s
  }
}
