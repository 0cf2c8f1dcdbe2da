/** The manager's description of the composite model: components, interface proxies and
    the connections between them, from which the routing table and the step limits follow. */
module CompositeModel {
  import opened TimeProtocol

  /** `exactStep` tells that the solver takes equidistant steps; a negative socket means
      that the component has not connected. */
  datatype Component = Component(name: string, exactStep: bool, socket: int, ready: bool)

  datatype Proxy = Proxy(
    component: nat, name: string, causality: string, registered: bool, connectionID: int, linkedID: int)

  datatype Connection = Connection(from: nat, to: nat, delay: real)

  // ---- the routing table ----

  predicate Touches(k: Connection, i: nat) {
    k.from == i || k.to == i
  }

  function OtherEnd(k: Connection, i: nat): nat {
    if k.from == i then k.to else k.from
  }

  /** The newest connection that touches interface `i`, or -1. */
  function ConnectionOf(conns: seq<Connection>, i: nat): int {
    if conns == [] then -1
    else if Touches(conns[|conns| - 1], i) then |conns| - 1
    else ConnectionOf(conns[..|conns| - 1], i)
  }

  /** The interface to which data from interface `i` goes, or -1. */
  function LinkOf(conns: seq<Connection>, i: nat): int {
    var k := ConnectionOf(conns, i);
    if 0 <= k < |conns| then OtherEnd(conns[k], i) else -1
  }

  /** Every end of every connection. */
  function Ends(conns: seq<Connection>): multiset<nat> {
    if conns == [] then multiset{}
    else Ends(conns[..|conns| - 1]) + multiset{conns[|conns| - 1].from, conns[|conns| - 1].to}
  }

  /** No interface has more than one connection. */
  ghost predicate Exclusive(conns: seq<Connection>) {
    forall i: nat :: Ends(conns)[i] <= 1
  }

  /** The table sends the data of both ends of connection `k` to the respective other end. */
  ghost predicate Serves(conns: seq<Connection>, k: nat)
    requires k < |conns|
  {
    && conns[k].from != conns[k].to
    && ConnectionOf(conns, conns[k].from) == k == ConnectionOf(conns, conns[k].to)
    && LinkOf(conns, conns[k].from) == conns[k].to
    && LinkOf(conns, conns[k].to) == conns[k].from
  }

  lemma {:induction false} ConnectionTouches(conns: seq<Connection>, i: nat)
    ensures -1 <= ConnectionOf(conns, i) < |conns|
    ensures ConnectionOf(conns, i) >= 0 ==> Touches(conns[ConnectionOf(conns, i)], i)
    ensures forall k :: ConnectionOf(conns, i) < k < |conns| ==> !Touches(conns[k], i)
  {
    if conns != [] && !Touches(conns[|conns| - 1], i) {
      ConnectionTouches(conns[..|conns| - 1], i);
    }
  }

  /** How often an interface is an end of one connection. */
  function EndCount(k: Connection, i: nat): nat {
    (if k.from == i then 1 else 0) + (if k.to == i then 1 else 0)
  }

  lemma EndsLast(conns: seq<Connection>, i: nat)
    requires conns != []
    ensures Ends(conns)[i] == Ends(conns[..|conns| - 1])[i] + EndCount(conns[|conns| - 1], i)
  {
  }

  lemma {:induction false} EndsAt(conns: seq<Connection>, k: nat, i: nat)
    requires k < |conns|
    ensures EndCount(conns[k], i) <= Ends(conns)[i]
  {
    EndsLast(conns, i);
    if k < |conns| - 1 {
      EndsAt(conns[..|conns| - 1], k, i);
    }
  }

  /** Two connections of the same interface are both counted. */
  lemma {:induction false} EndsAtBoth(conns: seq<Connection>, k: nat, l: nat, i: nat)
    requires k < l < |conns|
    ensures EndCount(conns[k], i) + EndCount(conns[l], i) <= Ends(conns)[i]
  {
    EndsLast(conns, i);
    if l < |conns| - 1 {
      EndsAtBoth(conns[..|conns| - 1], k, l, i);
    } else {
      EndsAt(conns[..l], k, i);
    }
  }

  lemma {:induction false} NoEnds(conns: seq<Connection>, i: nat)
    requires forall k :: 0 <= k < |conns| ==> !Touches(conns[k], i)
    ensures Ends(conns)[i] == 0
  {
    if conns != [] {
      var init := conns[..|conns| - 1];
      forall k | 0 <= k < |init| ensures !Touches(init[k], i) {
        assert init[k] == conns[k];
      }
      NoEnds(init, i);
    }
  }

  lemma {:induction false} OneEnd(conns: seq<Connection>, k: nat, i: nat)
    requires k < |conns| && conns[k].from != conns[k].to
    requires forall l :: 0 <= l < |conns| && l != k ==> !Touches(conns[l], i)
    ensures Ends(conns)[i] <= 1
  {
    var last := |conns| - 1;
    var init := conns[..last];
    assert forall l :: 0 <= l < |init| ==> init[l] == conns[l];
    if k == last {
      NoEnds(init, i);
    } else {
      OneEnd(init, k, i);
      assert !Touches(conns[last], i);
    }
  }

  lemma ExclusiveServes(conns: seq<Connection>, k: nat)
    requires Exclusive(conns) && k < |conns|
    ensures Serves(conns, k)
  {
    var c := conns[k];
    EndsAt(conns, k, c.from);
    assert Ends(conns)[c.from] <= 1;
    NewestConnection(conns, k, c.from);
    NewestConnection(conns, k, c.to);
  }

  lemma NewestConnection(conns: seq<Connection>, k: nat, i: nat)
    requires k < |conns| && Touches(conns[k], i) && Ends(conns)[i] <= 1
    ensures ConnectionOf(conns, i) == k
  {
    ConnectionTouches(conns, i);
    var l := ConnectionOf(conns, i);
    if k < l {
      EndsAtBoth(conns, k, l, i);
    }
  }

  lemma ServedExclusive(conns: seq<Connection>, i: nat)
    requires forall k :: 0 <= k < |conns| ==> Serves(conns, k)
    ensures Ends(conns)[i] <= 1
  {
    ConnectionTouches(conns, i);
    var k := ConnectionOf(conns, i);
    if k < 0 {
      NoEnds(conns, i);
    } else {
      forall l | 0 <= l < |conns| && l != k ensures !Touches(conns[l], i) {
        assert Serves(conns, l);
      }
      assert Serves(conns, k);
      OneEnd(conns, k, i);
    }
  }

  /** Counting the ends of connections is exactly the right check: no interface occurs
      twice if and only if the routing table serves every connection in both directions. */
  lemma CountingIsEnough(conns: seq<Connection>)
    ensures Exclusive(conns) <==> forall k :: 0 <= k < |conns| ==> Serves(conns, k)
  {
    if Exclusive(conns) {
      forall k | 0 <= k < |conns| ensures Serves(conns, k) {
        ExclusiveServes(conns, k);
      }
    }
    if forall k :: 0 <= k < |conns| ==> Serves(conns, k) {
      forall i: nat ensures Ends(conns)[i] <= 1 {
        ServedExclusive(conns, i);
      }
    }
  }

  // ---- causalities ----

  /** The causalities that the check does not reject. */
  predicate Accepted(a: string, b: string) {
    && !(a == "bidirectional" && b != "bidirectional")
    && !(a != "bidirectional" && b == "bidirectional")
    && !(a == "input" && b != "output")
    && !(a == "output" && b != "input")
  }

  predicate WellPaired(a: string, b: string) {
    (a == "bidirectional" && b == "bidirectional") || (a == "input" && b == "output") || (a == "output" && b == "input")
  }

  predicate KnownCausality(a: string) {
    a == "bidirectional" || a == "input" || a == "output"
  }

  /** What the check promises about a connection of a model that passes: data travels both
      ways between distinct interfaces, and their causalities match exactly when both are
      ones the framework knows. */
  lemma CheckedRouting(conns: seq<Connection>, causality: seq<string>, i: nat)
    requires Exclusive(conns)
    requires forall k :: 0 <= k < |conns| ==> conns[k].from < |causality| && conns[k].to < |causality|
    requires forall k :: 0 <= k < |conns| ==> Accepted(causality[conns[k].from], causality[conns[k].to])
    requires LinkOf(conns, i) >= 0
    ensures
      var j := LinkOf(conns, i);
      && j != i && LinkOf(conns, j) == i && i < |causality| && j < |causality|
      && (WellPaired(causality[i], causality[j]) <==> KnownCausality(causality[i]) && KnownCausality(causality[j]))
  {
    ConnectionTouches(conns, i);
    ExclusiveServes(conns, ConnectionOf(conns, i));
  }

  /** Exactly which pairs the check lets pass although they do not match. */
  lemma WhatPasses(a: string, b: string)
    ensures Accepted(a, b) <==>
      || (a == "bidirectional" && b == "bidirectional") || (a == "input" && b == "output")
      || (a == "output" && b == "input")
      || (a != "bidirectional" && a != "input" && a != "output" && b != "bidirectional")
    ensures Accepted(a, b) <==> WellPaired(a, b) || (!KnownCausality(a) && b != "bidirectional")
  {
  }

  /** A model that passes although one end of its only connection expects data and the other
      has a causality that the framework does not know. */
  lemma UnknownPasses() returns (conns: seq<Connection>, causality: seq<string>)
    ensures Exclusive(conns) && |conns| == 1 && conns[0].from < |causality| && conns[0].to < |causality|
    ensures causality == ["signal", "input"]
    ensures
      var a, b := causality[conns[0].from], causality[conns[0].to];
      Accepted(a, b) && !WellPaired(a, b)
  {
    conns, causality := [Connection(0, 1, 1.0)], ["signal", "input"];
    assert "signal"[0] != "input"[0] && "signal"[0] != "bidirectional"[0] && "signal"[0] != "output"[0];
  }

  // ---- step limits ----

  const TEN_TO_50 := 100000000000000000000000000000000000000000000000000.0

  /** The start value of the search for the smallest delay. */
  const NO_LIMIT := TEN_TO_50 * TEN_TO_50 * TEN_TO_50

  /** The delay at an interface that belongs to component `c` and is connected. */
  predicate Attached(interfaces: seq<Proxy>, connections: seq<Connection>, c: nat, j: nat) {
    j < |interfaces| && interfaces[j].component == c && 0 <= interfaces[j].connectionID < |connections|
  }

  function DelayAt(interfaces: seq<Proxy>, connections: seq<Connection>, c: nat, j: nat): real
    requires Attached(interfaces, connections, c, j)
  {
    connections[interfaces[j].connectionID].delay
  }

  /** The smallest delay at the first `n` interfaces, or the start value. */
  function Smallest(interfaces: seq<Proxy>, connections: seq<Connection>, c: nat, n: nat): real
    requires n <= |interfaces|
  {
    if n == 0 then NO_LIMIT
    else
      var m := Smallest(interfaces, connections, c, n - 1);
      if Attached(interfaces, connections, c, n - 1) && DelayAt(interfaces, connections, c, n - 1) < m
      then DelayAt(interfaces, connections, c, n - 1) else m
  }

  /** The step limit handed to component `c` on start-up. */
  function Limit(interfaces: seq<Proxy>, connections: seq<Connection>, c: nat, exactStep: bool): real {
    var m := Smallest(interfaces, connections, c, |interfaces|);
    var whole := if m == NO_LIMIT || m <= 0.0 then 0.0001 else m;
    if exactStep then whole else whole / 2.0
  }

  lemma {:induction false} SmallestIsLeast(interfaces: seq<Proxy>, connections: seq<Connection>, c: nat, n: nat)
    requires n <= |interfaces|
    ensures
      var m := Smallest(interfaces, connections, c, n);
      && m <= NO_LIMIT
      && (forall j :: 0 <= j < n && Attached(interfaces, connections, c, j) ==>
            m <= DelayAt(interfaces, connections, c, j))
      && (m == NO_LIMIT || exists j ::
            0 <= j < n && Attached(interfaces, connections, c, j) && m == DelayAt(interfaces, connections, c, j))
  {
    if n > 0 {
      SmallestIsLeast(interfaces, connections, c, n - 1);
      if Attached(interfaces, connections, c, n - 1) {
        var d := DelayAt(interfaces, connections, c, n - 1);
        assert d < Smallest(interfaces, connections, c, n - 1) ==> Smallest(interfaces, connections, c, n) == d;
      }
    }
  }

  /** For a component all of whose delays are positive, a step within its limit is within
      each delay (half of each, unless its steps are exact), and it is the longest such
      step unless all its delays are beyond the start value of the search. */
  lemma LimitIsTight(interfaces: seq<Proxy>, connections: seq<Connection>, c: nat, exactStep: bool, h: real)
    requires forall j :: Attached(interfaces, connections, c, j) ==> 0.0 < DelayAt(interfaces, connections, c, j)
    requires exists j :: Attached(interfaces, connections, c, j) && DelayAt(interfaces, connections, c, j) < NO_LIMIT
    ensures 0.0 < Limit(interfaces, connections, c, exactStep)
    ensures h <= Limit(interfaces, connections, c, exactStep) <==>
      forall j :: Attached(interfaces, connections, c, j) ==>
        h <= if exactStep then DelayAt(interfaces, connections, c, j) else DelayAt(interfaces, connections, c, j) / 2.0
  {
    SmallestIsLeast(interfaces, connections, c, |interfaces|);
  }

  /** Without a usable delay a component gets a tenth of a millisecond, or half of that. */
  lemma LimitWithoutDelay(interfaces: seq<Proxy>, connections: seq<Connection>, c: nat, exactStep: bool)
    requires
      || (forall j :: Attached(interfaces, connections, c, j) ==> NO_LIMIT <= DelayAt(interfaces, connections, c, j))
      || (exists j :: Attached(interfaces, connections, c, j) && DelayAt(interfaces, connections, c, j) <= 0.0)
    ensures Limit(interfaces, connections, c, exactStep) == if exactStep then 0.0001 else 0.00005
  {
    SmallestIsLeast(interfaces, connections, c, |interfaces|);
  }

  // ---- the model ----

  class Model {
    var components: seq<Component>
    var interfaces: seq<Proxy>
    var connections: seq<Connection>

    /** The proxies hold what the connections made so far ask for. */
    ghost predicate Valid()
      reads this
    {
      && (forall i :: 0 <= i < |interfaces| ==> interfaces[i].component < |components|)
      && (forall k :: 0 <= k < |connections| ==> connections[k].from < |interfaces| && connections[k].to < |interfaces|)
      && (forall i :: 0 <= i < |interfaces| ==>
            && interfaces[i].connectionID == ConnectionOf(connections, i)
            && interfaces[i].linkedID == LinkOf(connections, i))
    }

    constructor ()
      ensures Valid() && components == [] && interfaces == [] && connections == []
    {
      components, interfaces, connections := [], [], [];
    }

    method RegisterTLMComponentProxy(name: string, exactStep: bool) returns (id: nat)
      requires Valid()
      modifies this`components
      ensures Valid() && id == |old(components)|
      ensures components == old(components) + [Component(name, exactStep, -1, false)]
    {
      components := components + [Component(name, exactStep, -1, false)];
      id := |components| - 1;
    }

    method RegisterTLMInterfaceProxy(componentID: nat, name: string, causality: string) returns (id: nat)
      requires Valid() && componentID < |components|
      modifies this`interfaces
      ensures Valid() && id == |old(interfaces)|
      ensures interfaces == old(interfaces) + [Proxy(componentID, name, causality, false, -1, -1)]
    {
      UntouchedNew();
      interfaces := interfaces + [Proxy(componentID, name, causality, false, -1, -1)];
      id := |interfaces| - 1;
    }

    lemma UntouchedNew()
      requires Valid()
      ensures ConnectionOf(connections, |interfaces|) == -1
    {
      ConnectionTouches(connections, |interfaces|);
    }

    method SetConnection(i: nat, connectionID: nat)
      requires i < |interfaces| && connectionID < |connections| && Touches(connections[connectionID], i)
      modifies this`interfaces
      ensures interfaces == old(interfaces)[i := old(interfaces)[i].(
        connectionID := connectionID, linkedID := OtherEnd(connections[connectionID], i))]
    {
      var conn := connections[connectionID];
      interfaces := interfaces[i := interfaces[i].(
        connectionID := connectionID, linkedID := if conn.from == i then conn.to else conn.from)];
    }

    /** Adding a connection and attaching both of its ends to it. */
    method Connect(from: nat, to: nat, delay: real)
      requires Valid() && from < |interfaces| && to < |interfaces|
      modifies this`interfaces, this`connections
      ensures Valid() && connections == old(connections) + [Connection(from, to, delay)]
      ensures |interfaces| == |old(interfaces)|
      ensures forall i :: 0 <= i < |interfaces| ==>
        interfaces[i] == old(interfaces[i]).(
          connectionID := interfaces[i].connectionID, linkedID := interfaces[i].linkedID)
    {
      connections := connections + [Connection(from, to, delay)];
      assert connections[..|connections| - 1] == old(connections);
      forall i: nat | i < |interfaces| && !Touches(Connection(from, to, delay), i)
        ensures LinkOf(connections, i) == LinkOf(old(connections), i)
      {
        ConnectionTouches(old(connections), i);
      }
      SetConnection(from, |connections| - 1);
      SetConnection(to, |connections| - 1);
    }

    /** The newest component of the given name. */
    method GetTLMComponentID(name: string) returns (id: int)
      ensures -1 <= id < |components| && (id >= 0 ==> components[id].name == name)
      ensures forall i :: id < i < |components| ==> components[i].name != name
    {
      id := |components| - 1;
      while id >= 0
        invariant -1 <= id < |components|
        invariant forall i :: id < i < |components| ==> components[i].name != name
      {
        if components[id].name == name {
          return;
        }
        id := id - 1;
      }
    }

    /** The newest interface of a component with the given name. */
    method GetTLMInterfaceID(componentID: nat, name: string) returns (id: int)
      ensures -1 <= id < |interfaces|
      ensures id >= 0 ==> interfaces[id].component == componentID && interfaces[id].name == name
      ensures forall i :: id < i < |interfaces| ==>
        interfaces[i].component != componentID || interfaces[i].name != name
    {
      id := |interfaces| - 1;
      while id >= 0
        invariant -1 <= id < |interfaces|
        invariant forall i :: id < i < |interfaces| ==>
          interfaces[i].component != componentID || interfaces[i].name != name
      {
        if interfaces[id].component == componentID && interfaces[id].name == name {
          return;
        }
        id := id - 1;
      }
    }

    ghost predicate CausalitiesAccepted(n: nat)
      requires Valid() && n <= |connections|
      reads this
    {
      forall k :: 0 <= k < n ==>
        Accepted(interfaces[connections[k].from].causality, interfaces[connections[k].to].causality)
    }

    /** The model is sound when no interface has several connections and no connection
        has been rejected for its causalities; otherwise the manager gives up. */
    method CheckTheModel() returns (ok: bool)
      requires Valid()
      ensures ok <==> Exclusive(connections) && CausalitiesAccepted(|connections|)
    {
      var abort, connected := CheckConnections();
      ghost var rejected := abort;
      var i := 0;
      while i < |interfaces|
        invariant i <= |interfaces|
        invariant abort <==> rejected || exists j: nat :: j < i && connected[j] > 1
      {
        if connected[i] > 1 {
          abort := true;
        }
        i := i + 1;
      }
      NoFurtherEnds();
      ok := !abort;
    }

    method CheckConnections() returns (abort: bool, connected: multiset<nat>)
      requires Valid()
      ensures connected == Ends(connections) && (abort <==> !CausalitiesAccepted(|connections|))
    {
      abort, connected := false, multiset{};
      var k := 0;
      while k < |connections|
        invariant k <= |connections| && connected == Ends(connections[..k])
        invariant abort <==> !CausalitiesAccepted(k)
      {
        var from, to := connections[k].from, connections[k].to;
        connected := connected + multiset{from};
        connected := connected + multiset{to};
        var accepted := CheckCausality(interfaces[from].causality, interfaces[to].causality);
        abort := abort || !accepted;
        EndsNext(k, connected);
        k := k + 1;
      }
      assert connections[..k] == connections;
    }

    /** The comparison of two causalities. */
    static method CheckCausality(a: string, b: string) returns (ok: bool)
      ensures ok <==> Accepted(a, b)
    {
      ok := true;
      if (a == "bidirectional" && b != "bidirectional") || (a != "bidirectional" && b == "bidirectional")
        || (a == "input" && b != "output") || (a == "output" && b != "input")
      {
        ok := false;
      }
    }

    lemma EndsNext(k: nat, connected: multiset<nat>)
      requires k < |connections|
      requires connected == Ends(connections[..k]) + multiset{connections[k].from} + multiset{connections[k].to}
      ensures connected == Ends(connections[..k + 1])
    {
      assert connections[..k + 1][..k] == connections[..k];
    }

    lemma NoFurtherEnds()
      requires Valid()
      ensures forall i: nat :: i >= |interfaces| ==> Ends(connections)[i] == 0
    {
      forall i: nat | i >= |interfaces| ensures Ends(connections)[i] == 0 {
        NoEnds(connections, i);
      }
    }

    /** The limit on the time step of a component. */
    method StepLimit(i: nat) returns (maxStep: real)
      requires Valid() && i < |components|
      ensures maxStep == Limit(interfaces, connections, i, components[i].exactStep)
    {
      maxStep := NO_LIMIT;
      var j := 0;
      while j < |interfaces|
        invariant j <= |interfaces| && maxStep == Smallest(interfaces, connections, i, j)
      {
        ConnectionTouches(connections, j);
        if interfaces[j].component == i && interfaces[j].connectionID >= 0 {
          var conn := connections[interfaces[j].connectionID];
          if maxStep > conn.delay {
            maxStep := conn.delay;
          }
        }
        j := j + 1;
      }
      if NO_LIMIT == maxStep {
        maxStep := 0.0;
      }
      if maxStep <= 0.0 {
        maxStep := 0.0001;
      }
      if !components[i].exactStep {
        maxStep := maxStep / 2.0;
      }
    }

    /** The simulation may start when every component is ready and every interface of the
        model has been registered. */
    method CheckProxyComm() returns (ok: bool)
      ensures ok <==>
        && (forall c :: 0 <= c < |components| ==> components[c].socket >= 0 && components[c].ready)
        && (forall i :: 0 <= i < |interfaces| ==> interfaces[i].registered)
    {
      var c := 0;
      while c < |components|
        invariant c <= |components|
        invariant forall d :: 0 <= d < c ==> components[d].socket >= 0 && components[d].ready
      {
        if components[c].socket < 0 || !components[c].ready {
          return false;
        }
        c := c + 1;
      }
      var i := 0;
      while i < |interfaces|
        invariant i <= |interfaces|
        invariant forall j :: 0 <= j < i ==> interfaces[j].registered
      {
        if !interfaces[i].registered {
          return false;
        }
        i := i + 1;
      }
      return true;
    }

    /** The reply to the registration of an interface: its identity, or -1 when it has no
        connection. So the interfaces a plug-in keeps, and sends data for, are those with
        a link. */
    method SetupInterfaceConnectionMessage(ifcID: nat) returns (reply: int)
      requires Valid() && ifcID < |interfaces|
      modifies this`interfaces
      ensures Valid() && interfaces == old(interfaces)[ifcID := old(interfaces)[ifcID].(registered := true)]
      ensures reply == -1 || reply == ifcID
      ensures reply >= 0 <==> LinkOf(connections, ifcID) >= 0
    {
      ConnectionTouches(connections, ifcID);
      interfaces := interfaces[ifcID := interfaces[ifcID].(registered := true)];
      if interfaces[ifcID].connectionID < 0 {
        return -1;
      }
      reply := ifcID;
    }

    /** The configuration of the time protocol that this model stands for. */
    ghost predicate Describes(cfg: Config)
      requires Valid()
      reads this
    {
      && |cfg.owner| == |cfg.linked| == |cfg.delay| == |interfaces|
      && |cfg.program| == |cfg.step| == |cfg.equidistant| == |components|
      && (forall c :: 0 <= c < |components| ==> cfg.equidistant[c] == components[c].exactStep)
      && (forall i :: 0 <= i < |interfaces| ==>
            && 0 <= interfaces[i].connectionID < |connections|
            && cfg.owner[i] == interfaces[i].component
            && cfg.linked[i] == interfaces[i].linkedID
            && cfg.delay[i] == connections[interfaces[i].connectionID].delay)
    }

    /** A model that passes the check, with all interfaces connected by positive delays
        and all steps within the limits handed out, meets what the safety and deadlock
        theorems of the time protocol ask of wiring and steps. */
    lemma ProtocolReady(cfg: Config)
      requires Valid() && Describes(cfg) && Exclusive(connections)
      requires forall k :: 0 <= k < |connections| ==> 0.0 < connections[k].delay < NO_LIMIT
      requires forall c :: 0 <= c < |components| ==>
        0.0 < cfg.step[c] <= Limit(interfaces, connections, c, components[c].exactStep)
      ensures cfg.Wired() && cfg.StepsWithinLimit()
    {
      forall i | 0 <= i < |interfaces|
        ensures cfg.linked[i] < |interfaces| && cfg.linked[cfg.linked[i]] == i
        ensures cfg.delay[cfg.linked[i]] == cfg.delay[i]
      {
        ConnectionTouches(connections, i);
        ExclusiveServes(connections, ConnectionOf(connections, i));
      }
      forall i | 0 <= i < |interfaces|
        ensures 0.0 < cfg.step[cfg.owner[i]]
        ensures cfg.step[cfg.owner[i]] <= if cfg.equidistant[cfg.owner[i]] then cfg.delay[i] else cfg.delay[i] / 2.0
      {
        assert Attached(interfaces, connections, interfaces[i].component, i);
        LimitIsTight(interfaces, connections, interfaces[i].component, components[interfaces[i].component].exactStep,
                     cfg.step[interfaces[i].component]);
      }
    }
  }
}
