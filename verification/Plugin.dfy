/** The plug-in of one component: its interfaces, and the one socket on which time data
    for any of them arrives. */
module Plugin {
  import opened Samples
  import opened TimeProtocol
  import opened TimeProtocolProofs
  import opened WaveWindows
  import opened WaveInterface

  /** Why receiving stopped: the request is covered, the request is later than what the
      own sent data allows, or the socket gave no more messages. */
  datatype Outcome = Covered | Beyond | Silent

  /** What the protocol sees of an interface. */
  datatype Port = Port(id: nat, delay: real, ifc: Ifc)

  datatype Drained = Drained(ports: map<nat, Port>, inbox: seq<Packet>, outcome: Outcome)

  /** All packets are for known interfaces and carry samples. */
  ghost predicate Known(ids: set<nat>, inbox: seq<Packet>) {
    forall k :: 0 <= k < |inbox| ==> inbox[k].ifc in ids && inbox[k].samples != []
  }

  function Fed(port: Port, samples: seq<Sample>): Port
    requires samples != []
  {
    port.(ifc := Unpack(port.ifc, port.delay, samples))
  }

  function Delivered(ports: map<nat, Port>, p: Packet): map<nat, Port>
    requires p.ifc in ports && p.samples != []
  {
    ports[p.ifc := Fed(ports[p.ifc], p.samples)]
  }

  /** The verdict on a request before another packet is read. */
  function Verdict(port: Port, time: real): Outcome {
    if time <= port.ifc.nextRecv then Covered
    else if port.ifc.lastSend + port.delay < time then Beyond
    else Silent
  }

  /** Reading packet by packet, with every decision taken anew before each packet. */
  function Drain(ports: map<nat, Port>, inbox: seq<Packet>, req: nat, time: real): (r: Drained)
    requires req in ports && Known(ports.Keys, inbox)
    ensures r.ports.Keys == ports.Keys
    decreases |inbox|
  {
    var verdict := Verdict(ports[req], time);
    if verdict != Silent || inbox == [] then Drained(ports, inbox, verdict)
    else
      assert Delivered(ports, inbox[0]).Keys == ports.Keys;
      Drain(Delivered(ports, inbox[0]), inbox[1..], req, time)
  }

  lemma DrainEnds(ports: map<nat, Port>, inbox: seq<Packet>, req: nat, time: real)
    requires req in ports && Known(ports.Keys, inbox)
    requires Verdict(ports[req], time) != Silent || inbox == []
    ensures Drain(ports, inbox, req, time) == Drained(ports, inbox, Verdict(ports[req], time))
  {
  }

  /** The protocol's view of an interface. */
  ghost function View(f: Interface): Port
    reads f`gone, f`timeData, f`lastSendTime, f`nextRecvTime, f`dataToSend, f`offered, f`sent
  {
    Port(f.id, f.params.delay, f.Abstract())
  }

  function NewPort(id: nat, delay: real, startTime: real): Port {
    Port(id, delay, Ifc(startTime, startTime + delay, [], [], [], []))
  }

  /** What the answers of an interface will depend on when it has received `all`. */
  function HavingReceived(h: History, all: seq<Sample>): History {
    h.(window := if |h.gone| <= |all| then all[|h.gone|..] else [])
  }

  /** The force at an interface. */
  method Ask(ifc: Interface, time: real, speed: real, ghost port: Port) returns (force: real)
    requires port == View(ifc) && !Dividing(ifc.params, HavingReceived(ifc.Now(), port.ifc.unpacked), time)
    modifies ifc`currentInterval
    ensures port == View(ifc)
    ensures force == Force(ifc.params, ifc.initial, speed,
                           WindowAnswer(ifc.params, old(HavingReceived(ifc.Now(), port.ifc.unpacked)), time))
  {
    assert port.ifc.unpacked[|ifc.gone|..] == ifc.timeData;
    force := ifc.GetForce(time, speed);
  }

  /** The sample that a motion offers. */
  ghost function Offered(ifc: Interface, time: real, position: real, speed: real): Sample
    requires !Dividing(ifc.params, ifc.Now(), time)
    reads ifc
  {
    ifc.ItemAt(time, position, speed)
  }

  /** Motion at an interface: the sample it offers, and what it sends for it. */
  method Move(ifc: Interface, time: real, position: real, speed: real, ghost port: Port)
    requires port == View(ifc) && !Dividing(ifc.params, ifc.Now(), time)
    modifies ifc
    ensures View(ifc) == AfterMotion(port, old(Offered(ifc, time, position, speed)), ifc.params.mode > 0.0)
    ensures ifc.Now() == old(After(ifc.params, ifc.Now(), Moved(time)))
    ensures ifc.waitForShutdown == (old(ifc.waitForShutdown) || ifc.params.mode > 0.0)
    ensures ifc.socket == old(ifc.socket)
      + Sent(port, ifc.id, old(Offered(ifc, time, position, speed)), ifc.params.mode > 0.0)
  {
    ifc.SetTimeData(time, position, speed);
  }

  /** An interface after motion: in a simulation as the protocol says, when only start
      values are asked for with everything sent at once. */
  function AfterMotion(port: Port, x: Sample, startValues: bool): Port {
    var f := port.ifc;
    if startValues then
      port.(ifc := f.(lastSend := x.time, buffer := [], offered := f.offered + [x], sent := f.sent + (f.buffer + [x])))
    else port.(ifc := Offer(f, port.delay, x))
  }

  /** The packets sent by that motion. */
  function Sent(port: Port, id: nat, x: Sample, startValues: bool): seq<Packet> {
    if startValues then [Packet(id, port.ifc.buffer + [x])] else Sending(port.ifc, port.delay, id, x)
  }

  /** What motion offers is buffered or sent, nothing twice and nothing lost; and what has been sent
      grows by what the packets carry. Where only start values are asked for, nothing stays behind. */
  lemma MotionConserves(port: Port, id: nat, x: Sample, startValues: bool)
    ensures
      var f, g, packets := port.ifc, AfterMotion(port, x, startValues).ifc, Sent(port, id, x, startValues);
      && g.offered == f.offered + [x] && g.sent == f.sent + Carried(packets, id)
      && g.sent + g.buffer == f.sent + f.buffer + [x]
      && (startValues ==> g.buffer == [] && g.lastSend == x.time)
      && (packets == [] <==> !startValues && x.time < f.lastSend + port.delay / 2.0)
  {
    CarriedOne(Packet(id, port.ifc.buffer + [x]), id);
    assert port.ifc.sent + (port.ifc.buffer + [x]) == port.ifc.sent + port.ifc.buffer + [x];
    assert port.ifc.sent + [] == port.ifc.sent;
  }

  class Plugin {
    var interfaces: seq<Interface>
    var mapID2Ind: map<nat, nat>
    var inbox: seq<Packet>

    var nIfcWaitingForTakedown: nat

    // the protocol's view of every interface, by its identity
    ghost var ports: map<nat, Port>

    ghost predicate Indexed()
      reads `interfaces, `mapID2Ind, `ports, `inbox
    {
      && ports.Keys == mapID2Ind.Keys && Known(ports.Keys, inbox)
      && (forall id :: id in mapID2Ind ==> mapID2Ind[id] < |interfaces| && interfaces[mapID2Ind[id]].id == id)
      && (forall k :: 0 <= k < |interfaces| ==> interfaces[k].id in mapID2Ind && mapID2Ind[interfaces[k].id] == k)
    }

    ghost predicate Valid()
      reads `interfaces, `mapID2Ind, `inbox, `ports, interfaces`gone, interfaces`timeData, interfaces`lastSendTime,
        interfaces`nextRecvTime, interfaces`dataToSend, interfaces`offered, interfaces`sent
    {
      Indexed() && forall k :: 0 <= k < |interfaces| ==> ports[interfaces[k].id] == View(interfaces[k])
    }

    constructor ()
      ensures Valid() && ports == map[] && inbox == []
    {
      interfaces, mapID2Ind, inbox, ports, nIfcWaitingForTakedown := [], map[], [], map[], 0;
    }

    /** Registering adds an interface unless the manager reports it as not connected. */
    method RegisterInterface(id: int, params: Params, startTime: real) returns (r: int)
      requires Valid() && id !in mapID2Ind
      modifies this
      ensures Valid() && r == id && inbox == old(inbox)
      ensures ports == if id < 0 then old(ports)
        else old(ports)[id := NewPort(id, params.delay, startTime)]
    {
      if id >= 0 {
        var ifc := new Interface(id, params, startTime);
        AddInterface(ifc, NewPort(id, params.delay, startTime));
      }
      return id;
    }

    method AddInterface(ifc: Interface, ghost port: Port)
      requires Valid() && ifc.id !in mapID2Ind && port == View(ifc)
      modifies this`interfaces, this`mapID2Ind, this`ports
      ensures Valid() && ports == old(ports)[ifc.id := port]
    {
      var idx := |interfaces|;
      ports := ports[ifc.id := port];
      interfaces := interfaces + [ifc];
      mapID2Ind := mapID2Ind[ifc.id := idx];
      forall k | 0 <= k < |interfaces|
        ensures interfaces[k].id in mapID2Ind && mapID2Ind[interfaces[k].id] == k
        ensures interfaces[k].id in ports && ports[interfaces[k].id] == View(interfaces[k])
      {
        assert k < idx ==> interfaces[k] == old(interfaces)[k];
      }
    }

    /** A packet arrives on the socket. */
    method Arrive(p: Packet)
      requires Valid() && p.ifc in mapID2Ind && p.samples != []
      modifies this`inbox
      ensures Valid() && inbox == old(inbox) + [p]
    {
      inbox := inbox + [p];
    }

    /** One message from the socket into the interface it names. */
    method ReceiveOne() returns (ifc: Interface)
      requires Valid() && inbox != []
      modifies this`inbox, this`ports, interfaces`timeData, interfaces`nextRecvTime
      ensures Valid() && inbox == old(inbox)[1..] && ports == Delivered(old(ports), old(inbox)[0])
      ensures ifc == interfaces[mapID2Ind[old(inbox)[0].ifc]]
    {
      var message := inbox[0];
      var idx := mapID2Ind[message.ifc];
      ifc := interfaces[idx];
      ports := Delivered(ports, message);
      inbox := inbox[1..];
      ifc.UnpackTimeData(message.samples);
      forall k | 0 <= k < |interfaces|
        ensures ports[interfaces[k].id] == View(interfaces[k])
      {
        if interfaces[k] != ifc {
          assert View(interfaces[k]) == old(View(interfaces[k]));
        }
      }
    }

    /** What remains to be read leads to the same end. */
    ghost predicate Underway(reqIfc: Interface, time: real, all: Drained)
      reads `interfaces, `mapID2Ind, `inbox, `ports, interfaces`gone, interfaces`timeData, interfaces`lastSendTime,
        interfaces`nextRecvTime, interfaces`dataToSend, interfaces`offered, interfaces`sent
    {
      && Valid() && reqIfc in interfaces && reqIfc.id in ports
      && Drain(ports, inbox, reqIfc.id, time) == all
    }

    lemma VerdictOf(f: Interface, time: real)
      requires Valid() && f in interfaces
      ensures f.id in ports && Verdict(ports[f.id], time)
        == if time <= f.nextRecvTime then Covered else if f.lastSendTime + f.params.delay < time then Beyond else Silent
    {
    }

    /** One message on the way to the request being covered. */
    method ReceiveNext(reqIfc: Interface, time: real, ghost all: Drained) returns (ifc: Interface)
      requires Underway(reqIfc, time, all) && Verdict(ports[reqIfc.id], time) == Silent && inbox != []
      modifies this`inbox, this`ports, interfaces`timeData, interfaces`nextRecvTime
      ensures Underway(reqIfc, time, all) && inbox == old(inbox)[1..]
      ensures ifc != reqIfc ==> Verdict(ports[reqIfc.id], time) == Silent
    {
      ifc := ReceiveOne();
    }

    /** Messages until one for the interface waited for, or until there are no more. The
        result is the interface that got the last message. */
    method ReceiveUntil(reqIfc: Interface, time: real, ghost all: Drained) returns (ifc: Interface?)
      requires Underway(reqIfc, time, all) && Verdict(ports[reqIfc.id], time) == Silent
      modifies this`inbox, this`ports, interfaces`timeData, interfaces`nextRecvTime
      ensures Underway(reqIfc, time, all)
      ensures if ifc == null then inbox == old(inbox) == [] else |inbox| < |old(inbox)|
      ensures ifc == null ==> Verdict(ports[reqIfc.id], time) == Silent
    {
      ifc := null;
      while ifc != reqIfc
        invariant Underway(reqIfc, time, all)
        invariant ifc != reqIfc ==> Verdict(ports[reqIfc.id], time) == Silent
        invariant if ifc == null then inbox == old(inbox) else |inbox| < |old(inbox)|
        decreases |inbox|
      {
        if inbox == [] {
          break;
        }
        ifc := ReceiveNext(reqIfc, time, all);
      }
    }

    /** The blocking loops: messages for other interfaces are unpacked on the way to the
        one that is waited for, and only then the request is looked at again. */
    method ReceiveTimeData(reqIfc: Interface, time: real)
      requires Valid() && reqIfc in interfaces
      modifies this`inbox, this`ports, interfaces`timeData, interfaces`nextRecvTime
      ensures Valid() && reqIfc in interfaces && reqIfc.id in old(ports) && reqIfc.id in ports
      ensures
        var all := Drain(old(ports), old(inbox), reqIfc.id, time);
        ports == all.ports && inbox == all.inbox && Verdict(ports[reqIfc.id], time) == all.outcome
    {
      ghost var all := Drain(ports, inbox, reqIfc.id, time);
      VerdictOf(reqIfc, time);
      while time > reqIfc.nextRecvTime
        invariant Underway(reqIfc, time, all)
        invariant time <= reqIfc.nextRecvTime ==> Verdict(ports[reqIfc.id], time) == Covered
        decreases |inbox|
      {
        VerdictOf(reqIfc, time);
        var allowedMaxTime := reqIfc.lastSendTime + reqIfc.params.delay;
        if allowedMaxTime < time {
          break;
        }
        var ifc := ReceiveUntil(reqIfc, time, all);
        VerdictOf(reqIfc, time);
        if ifc == null {
          break;
        }
      }
      DrainEnds(ports, inbox, reqIfc.id, time);
    }

    /** Setting motion, which is ignored for interfaces without a connection. Once the
        interface waits for being taken down, the call only counts how many do; the result
        tells that the component may ask to close and exit. */
    method SetMotion1D(forceID: int, time: real, position: real, speed: real) returns (exit: bool)
      requires Valid() && (forceID >= 0 ==> forceID in mapID2Ind)
      requires forceID >= 0 && !interfaces[mapID2Ind[forceID]].waitForShutdown ==>
        !Dividing(interfaces[mapID2Ind[forceID]].params, interfaces[mapID2Ind[forceID]].Now(), time)
      modifies this`ports, this`nIfcWaitingForTakedown, interfaces
      ensures Valid() && (forceID >= 0 ==> forceID in old(ports))
      ensures forceID < 0 ==> ports == old(ports) && !exit
      ensures forceID >= 0 && !old(interfaces[mapID2Ind[forceID]].waitForShutdown) ==>
        && ports == old(ports)[forceID := AfterMotion(old(ports)[forceID],
                      old(Offered(interfaces[mapID2Ind[forceID]], time, position, speed)),
                      interfaces[mapID2Ind[forceID]].params.mode > 0.0)]
        && !exit
      ensures forceID >= 0 && old(interfaces[mapID2Ind[forceID]].waitForShutdown) ==>
        && ports == old(ports) && (exit ==> AllWaiting())
        && nIfcWaitingForTakedown == old(nIfcWaitingForTakedown) + (if AllWaiting() then 1 else 0)
        && (AllWaiting() ==> (exit <==> nIfcWaitingForTakedown >= |interfaces|))
    {
      exit := false;
      if forceID < 0 {
        return;
      }
      var ifc := interfaces[mapID2Ind[forceID]];
      if !ifc.waitForShutdown {
        MoveInterface(ifc, time, position, speed);
      } else {
        var all := CheckAllWaiting();
        if all {
          nIfcWaitingForTakedown := nIfcWaitingForTakedown + 1;
          exit := nIfcWaitingForTakedown >= |interfaces|;
        }
      }
    }

    predicate AllWaiting()
      reads `interfaces, interfaces`waitForShutdown
    {
      forall k :: 0 <= k < |interfaces| ==> interfaces[k].waitForShutdown
    }

    method CheckAllWaiting() returns (all: bool)
      ensures all <==> AllWaiting()
    {
      var k := 0;
      while k < |interfaces|
        invariant k <= |interfaces| && forall j :: 0 <= j < k ==> interfaces[j].waitForShutdown
      {
        if !interfaces[k].waitForShutdown {
          return false;
        }
        k := k + 1;
      }
      return true;
    }

    method MoveInterface(ifc: Interface, time: real, position: real, speed: real)
      requires Valid() && ifc in interfaces && !Dividing(ifc.params, ifc.Now(), time)
      modifies this`ports, ifc
      ensures Valid() && ifc.id in old(ports)
      ensures ports == old(ports)[ifc.id := AfterMotion(old(ports)[ifc.id], old(Offered(ifc, time, position, speed)),
                                                  ifc.params.mode > 0.0)]
    {
      ghost var next := AfterMotion(ports[ifc.id], Offered(ifc, time, position, speed), ifc.params.mode > 0.0);
      Move(ifc, time, position, speed, ports[ifc.id]);
      ports := ports[ifc.id := next];
      forall k | 0 <= k < |interfaces|
        ensures ports[interfaces[k].id] == View(interfaces[k])
      {
        if interfaces[k] != ifc {
          assert View(interfaces[k]) == old(View(interfaces[k]));
        }
      }
    }

    /** What interface `id` will have received when a request at `time` has been served. */
    ghost function ReceivedFor(id: nat, time: real): seq<Sample>
      requires id in ports && Known(ports.Keys, inbox)
      reads `ports, `inbox
    {
      Drain(ports, inbox, id, time).ports[id].ifc.unpacked
    }

    method AskInterface(ifc: Interface, time: real, speed: real) returns (force: real)
      requires Valid() && ifc in interfaces && ifc.id in ports
      requires !Dividing(ifc.params, HavingReceived(ifc.Now(), ports[ifc.id].ifc.unpacked), time)
      modifies ifc`currentInterval
      ensures Valid()
      ensures force == Force(ifc.params, ifc.initial, speed,
                             WindowAnswer(ifc.params, old(HavingReceived(ifc.Now(), ports[ifc.id].ifc.unpacked)), time))
    {
      force := Ask(ifc, time, speed, ports[ifc.id]);
    }

    /** A force request: receiving what it needs, then asking the interface, also when the
        data needed has not come. */
    method GetForce1D(interfaceID: nat, time: real, speed: real) returns (force: real)
      requires Valid() && interfaceID in mapID2Ind && interfaceID in ports
      requires
        var ifc := interfaces[mapID2Ind[interfaceID]];
        !Dividing(ifc.params, HavingReceived(ifc.Now(), ReceivedFor(interfaceID, time)), time)
      modifies this`inbox, this`ports, interfaces`timeData, interfaces`nextRecvTime, interfaces`currentInterval
      ensures Valid() && interfaceID in mapID2Ind
      ensures ports == Drain(old(ports), old(inbox), interfaceID, time).ports
      ensures
        var ifc := interfaces[mapID2Ind[interfaceID]];
        force == Force(ifc.params, ifc.initial, speed,
                       WindowAnswer(ifc.params, old(HavingReceived(interfaces[mapID2Ind[interfaceID]].Now(),
                                                                   ReceivedFor(interfaceID, time))), time))
    {
      var ifc := interfaces[mapID2Ind[interfaceID]];
      ReceiveTimeData(ifc, time);
      force := AskInterface(ifc, time, speed);
    }
  }

  // ---- the plug-in within the time protocol ----

  /** The interfaces of component `c`. */
  function PortsOf(cfg: Config, s: State, c: nat): map<nat, Port>
    requires cfg.Wired() && |s.ifc| == |cfg.owner|
  {
    map i: nat | i < |cfg.owner| && cfg.owner[i] == c :: Port(i, cfg.delay[i], s.ifc[i])
  }

  /** An interface that has just been registered is one at the start of the protocol. */
  lemma RegisteredStarts(cfg: Config, c: nat, i: nat)
    requires cfg.Wired() && i < |cfg.owner| && cfg.owner[i] == c
    ensures i in PortsOf(cfg, Init(cfg), c)
    ensures PortsOf(cfg, Init(cfg), c)[i] == NewPort(i, cfg.delay[i], cfg.startTime)
  {
  }

  lemma ReceiveFeeds(cfg: Config, s: State, c: nat)
    requires cfg.Wired() && Shaped(cfg, s) && Enabled(cfg, s, Receive(c))
    ensures
      var t := Apply(cfg, s, Receive(c));
      && Shaped(cfg, t)
      && Known(PortsOf(cfg, s, c).Keys, s.down[c])
      && PortsOf(cfg, t, c) == Delivered(PortsOf(cfg, s, c), s.down[c][0])
  {
    ShapedStep(cfg, s, Receive(c));
  }

  /** Component `c` has received all it reads for its pending call, and nothing else
      has changed between `s` and `t`. */
  ghost predicate Mirrors(cfg: Config, s: State, t: State, c: nat, all: Drained) {
    && cfg.Wired() && Shaped(cfg, t) && c < |s.down| == |cfg.program|
    && t == s.(ifc := t.ifc, down := s.down[c := all.inbox])
    && PortsOf(cfg, t, c) == all.ports
    && |s.ifc| == |t.ifc|
    && (forall i :: 0 <= i < |cfg.owner| && cfg.owner[i] != c ==> t.ifc[i] == s.ifc[i])
    && (all.outcome == Covered <==> Enabled(cfg, t, Return(c)))
    && (all.outcome == Beyond <==> Enabled(cfg, t, Refuse(c)))
    && !Enabled(cfg, t, Receive(c))
  }

  ghost predicate Asking(cfg: Config, s: State, c: nat) {
    && cfg.Wired() && Shaped(cfg, s) && Running(cfg, s, c) && Pending(cfg, s, c).GetForce?
    && Pending(cfg, s, c).ifc < |cfg.owner| && cfg.owner[Pending(cfg, s, c).ifc] == c
  }

  /** What the plug-in's loop makes of the pending call. */
  ghost function Loop(cfg: Config, s: State, c: nat): Drained
    requires Asking(cfg, s, c)
  {
    assert forall k :: 0 <= k < |s.down[c]| ==> Addressed(cfg, s.down[c][k], c);
    Drain(PortsOf(cfg, s, c), s.down[c], Pending(cfg, s, c).ifc, Pending(cfg, s, c).time)
  }

  lemma LoopEnds(cfg: Config, s: State, c: nat)
    requires Asking(cfg, s, c) && !Enabled(cfg, s, Receive(c))
    ensures Mirrors(cfg, s, s, c, Loop(cfg, s, c))
  {
    assert s.down[c := s.down[c]] == s.down;
    if s.down[c] != [] {
      assert Addressed(cfg, s.down[c][0], c);
    }
  }

  lemma LoopContinues(cfg: Config, s: State, c: nat)
    requires Asking(cfg, s, c) && Enabled(cfg, s, Receive(c))
    ensures Asking(cfg, Apply(cfg, s, Receive(c)), c)
    ensures Loop(cfg, Apply(cfg, s, Receive(c)), c) == Loop(cfg, s, c)
  {
    ReceiveFeeds(cfg, s, c);
  }

  lemma MirrorsBefore(cfg: Config, s: State, t: State, c: nat, all: Drained)
    requires Asking(cfg, s, c) && Enabled(cfg, s, Receive(c))
    requires Mirrors(cfg, Apply(cfg, s, Receive(c)), t, c, all)
    ensures Mirrors(cfg, s, t, c, all)
  {
    assert Addressed(cfg, s.down[c][0], c);
    assert s.down[c := s.down[c][1..]][c := all.inbox] == s.down[c := all.inbox];
  }

  /** The blocking loop of a plug-in is a run of the time protocol in which only its
      component receives. It ends where the request is covered, where it must be refused,
      or where the component can only wait. */
  lemma {:induction false} LoopIsRun(cfg: Config, s: State, c: nat) returns (run: seq<Action>)
    requires Asking(cfg, s, c)
    ensures Legal(cfg, s, run) && forall k :: 0 <= k < |run| ==> run[k] == Receive(c)
    ensures Mirrors(cfg, s, Exec(cfg, s, run), c, Loop(cfg, s, c))
    decreases |s.down[c]|
  {
    if Enabled(cfg, s, Receive(c)) {
      LoopContinues(cfg, s, c);
      var rest := LoopIsRun(cfg, Apply(cfg, s, Receive(c)), c);
      run := [Receive(c)] + rest;
      assert run[1..] == rest;
      MirrorsBefore(cfg, s, Exec(cfg, s, run), c, Loop(cfg, s, c));
    } else {
      run := [];
      LoopEnds(cfg, s, c);
    }
  }

  /** In every run the samples of an arriving packet continue the stamps received before,
      as the interface that stores them demands. */
  lemma PacketsContinue(cfg: Config, s: State, c: nat)
    requires cfg.Disciplined() && Reachable(cfg, s) && c < |s.down| && s.down[c] != []
    ensures s.down[c][0].ifc < |s.ifc|
    ensures StrictStamps(s.ifc[s.down[c][0].ifc].unpacked + s.down[c][0].samples)
  {
    InvReachable(cfg, s);
    var p := s.down[c][0];
    assert Addressed(cfg, p, c);
    var peer := s.ifc[cfg.linked[p.ifc]];
    Delivery(cfg, s, p.ifc);
    assert Clocked(cfg, s, cfg.linked[p.ifc]);
    CarriedHead(s.down[c], p.ifc);
    CarriedOne(p, p.ifc);
    NextIsStrict(s.ifc[p.ifc].unpacked, p.samples, Carried(s.down[c][1..], p.ifc), Carried(s.queue, p.ifc),
                 Carried(s.up[cfg.owner[cfg.linked[p.ifc]]], cfg.linked[p.ifc]), peer.buffer);
  }

  lemma NextIsStrict(a: seq<Sample>, b: seq<Sample>, c: seq<Sample>, d: seq<Sample>, e: seq<Sample>, f: seq<Sample>)
    requires StrictStamps(a + (b + c + d + e) + f)
    ensures StrictStamps(a + b)
  {
    assert a + (b + c + d + e) + f == (a + b) + (c + d + e + f);
    StrictPrefix(a + b, c + d + e + f);
  }

  lemma StrictPrefix(a: seq<Sample>, b: seq<Sample>)
    requires StrictStamps(a + b)
    ensures StrictStamps(a)
  {
    assert forall i :: 0 <= i < |a| ==> a[i] == (a + b)[i];
  }
}
