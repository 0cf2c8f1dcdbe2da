/** The manager's handling of one time-data message: re-addressing it to the linked
    interface and copying it to the monitors of its source. */
module Routing {
  import opened CompositeModel

  /** A message while it is in the hands of the reader thread. */
  class Message {
    var socketHandle: int
    var interfaceID: int
    var data: seq<bv8>
  }

  /** A message in the send queue. */
  datatype Outgoing = Outgoing(socket: int, interfaceID: int, data: seq<bv8>)

  /** One monitor socket watching one interface. */
  datatype Watch = Watch(interfaceID: int, socket: int)

  /** The sockets that watch interface `i`, in their order of registration. */
  function Watchers(log: seq<Watch>, i: int): seq<int> {
    if log == [] then []
    else Watchers(log[..|log| - 1], i) + (if log[|log| - 1].interfaceID == i then [log[|log| - 1].socket] else [])
  }

  lemma {:induction false} WatchersAppend(a: seq<Watch>, b: seq<Watch>, i: int)
    ensures Watchers(a + b, i) == Watchers(a, i) + Watchers(b, i)
  {
    if b == [] {
      assert a + b == a;
    } else {
      var last := |b| - 1;
      assert (a + b)[..|a + b| - 1] == a + b[..last];
      WatchersAppend(a, b[..last], i);
    }
  }

  lemma WatchersOne(w: Watch, i: int)
    ensures Watchers([w], i) == if w.interfaceID == i then [w.socket] else []
  {
    assert [w][..0] == [];
  }

  lemma {:induction false} WatchersNone(log: seq<Watch>, i: int)
    requires forall k :: 0 <= k < |log| ==> log[k].interfaceID != i
    ensures Watchers(log, i) == []
  {
    if log != [] {
      WatchersNone(log[..|log| - 1], i);
    }
  }

  ghost predicate Sorted(s: seq<Watch>) {
    forall j, k :: 0 <= j < k < |s| ==> s[j].interfaceID <= s[k].interfaceID
  }

  /** A multimap: entries ordered by key, those with equal keys by their insertion. */
  ghost predicate Indexes(s: seq<Watch>, log: seq<Watch>) {
    Sorted(s) && forall i: int :: Watchers(s, i) == Watchers(log, i)
  }

  lemma InsertKeepsOrder(a: seq<Watch>, b: seq<Watch>, log: seq<Watch>, w: Watch)
    requires Indexes(a + b, log)
    requires forall k :: 0 <= k < |a| ==> a[k].interfaceID <= w.interfaceID
    requires forall k :: 0 <= k < |b| ==> w.interfaceID < b[k].interfaceID
    ensures Indexes(a + [w] + b, log + [w])
  {
    InsertSorted(a, b, w);
    forall i: int
      ensures Watchers(a + [w] + b, i) == Watchers(log + [w], i)
    {
      WatchersAppend(a + [w], b, i);
      WatchersAppend(a, [w], i);
      WatchersAppend(a, b, i);
      WatchersAppend(log, [w], i);
      WatchersOne(w, i);
      if i == w.interfaceID {
        WatchersNone(b, i);
      }
    }
  }

  lemma InsertSorted(a: seq<Watch>, b: seq<Watch>, w: Watch)
    requires Sorted(a + b)
    requires forall k :: 0 <= k < |a| ==> a[k].interfaceID <= w.interfaceID
    requires forall k :: 0 <= k < |b| ==> w.interfaceID < b[k].interfaceID
    ensures Sorted(a + [w] + b)
  {
    var s, t := a + b, a + [w] + b;
    assert forall k :: 0 <= k < |a| ==> t[k] == s[k];
    assert forall k :: |a| < k < |t| ==> t[k] == s[k - 1];
  }

  /** The copies of a message for the sockets in a list. */
  function Copies(sockets: seq<int>, interfaceID: int, data: seq<bv8>): seq<Outgoing> {
    seq(|sockets|, k requires 0 <= k < |sockets| => Outgoing(sockets[k], interfaceID, data))
  }

  /** Every registration of a monitor brings it exactly one copy, carrying the identity of the
      interface it watches. */
  lemma {:induction false} EveryMonitorServed(log: seq<Watch>, source: int, data: seq<bv8>, socket: int)
    ensures multiset(Copies(Watchers(log, source), source, data))[Outgoing(socket, source, data)]
         == multiset(log)[Watch(source, socket)]
  {
    if log != [] {
      var init, last := log[..|log| - 1], log[|log| - 1];
      EveryMonitorServed(init, source, data, socket);
      assert log == init + [last];
      if last.interfaceID == source {
        assert Copies(Watchers(log, source), source, data)
            == Copies(Watchers(init, source), source, data) + [Outgoing(last.socket, source, data)];
      } else {
        assert Watchers(log, source) == Watchers(init, source);
      }
    }
  }

  lemma NextWatcher(s: seq<Watch>, pos: nat, id: int, data: seq<bv8>)
    requires pos < |s| && s[pos].interfaceID == id
    ensures Copies(Watchers(s[..pos + 1], id), id, data)
         == Copies(Watchers(s[..pos], id), id, data) + [Outgoing(s[pos].socket, id, data)]
  {
    assert s[..pos + 1] == s[..pos] + [s[pos]];
    WatchersAppend(s[..pos], [s[pos]], id);
    WatchersOne(s[pos], id);
  }

  class Manager {
    const model: Model
    var monitors: seq<Watch>
    var queue: seq<Outgoing>
    var monitorsDisconnected: bool

    // all monitor registrations, oldest first
    ghost var log: seq<Watch>

    ghost predicate Valid()
      reads this, model
    {
      model.Valid() && Indexes(monitors, log)
    }

    constructor (model: Model)
      requires model.Valid()
      ensures Valid() && this.model == model && log == [] && queue == [] && !monitorsDisconnected
    {
      this.model := model;
      monitors, queue, log, monitorsDisconnected := [], [], [], false;
    }

    /** The first position whose key is not below `key`, or above it. */
    method Bound(key: int, above: bool) returns (pos: nat)
      requires Sorted(monitors)
      ensures pos <= |monitors|
      ensures forall k :: 0 <= k < pos ==>
        if above then monitors[k].interfaceID <= key else monitors[k].interfaceID < key
      ensures forall k :: pos <= k < |monitors| ==>
        if above then key < monitors[k].interfaceID else key <= monitors[k].interfaceID
    {
      pos := 0;
      while pos < |monitors| && (monitors[pos].interfaceID < key || (above && monitors[pos].interfaceID == key))
        invariant pos <= |monitors|
        invariant forall k :: 0 <= k < pos ==>
          if above then monitors[k].interfaceID <= key else monitors[k].interfaceID < key
      {
        pos := pos + 1;
      }
    }

    method RegisterMonitor(interfaceID: nat, socket: int)
      requires Valid()
      modifies this`monitors, this`log
      ensures Valid() && log == old(log) + [Watch(interfaceID, socket)]
    {
      var pos := Bound(interfaceID, true);
      assert monitors == monitors[..pos] + monitors[pos..];
      InsertKeepsOrder(monitors[..pos], monitors[pos..], log, Watch(interfaceID, socket));
      log := log + [Watch(interfaceID, socket)];
      monitors := monitors[..pos] + [Watch(interfaceID, socket)] + monitors[pos..];
    }

    /** Addresses a message to the interface linked with the one it comes from; a message
        from an interface without a connection loses its address. */
    method MarshalMessage(message: Message)
      requires Valid() && 0 <= message.interfaceID < |model.interfaces|
      modifies message`socketHandle, message`interfaceID
      ensures message.interfaceID == LinkOf(model.connections, old(message.interfaceID))
      ensures message.interfaceID >= 0 ==>
        && message.interfaceID < |model.interfaces|
        && message.socketHandle == model.components[model.interfaces[message.interfaceID].component].socket
      ensures message.interfaceID < 0 ==> message.interfaceID == -1 && message.socketHandle == -1
    {
      ConnectionTouches(model.connections, message.interfaceID);
      var destID := model.interfaces[message.interfaceID].linkedID;
      if destID < 0 {
        message.socketHandle := -1;
        message.interfaceID := -1;
      } else {
        message.socketHandle := model.components[model.interfaces[destID].component].socket;
        message.interfaceID := destID;
      }
    }

    /** Queues a copy for every monitor of the interface linked with the addressed one. The
        result is false when looking up the addressed interface leaves the vector of
        interfaces, which the code does not notice. */
    method ForwardToMonitor(message: Message) returns (inBounds: bool)
      requires Valid()
      modifies this`queue
      ensures inBounds <==> monitorsDisconnected || 0 <= message.interfaceID < |model.interfaces|
      ensures monitorsDisconnected || !inBounds ==> queue == old(queue)
      ensures !monitorsDisconnected && inBounds ==>
        var source := LinkOf(model.connections, message.interfaceID);
        queue == old(queue) + Copies(Watchers(log, source), source, message.data)
    {
      if monitorsDisconnected {
        return true;
      }
      if !(0 <= message.interfaceID < |model.interfaces|) {
        return false;
      }
      inBounds := true;
      CopyForAll(model.interfaces[message.interfaceID].linkedID, message.data);
    }

    /** One copy for each monitor of interface `id`, found by the bounds of its entries. */
    method CopyForAll(id: int, data: seq<bv8>)
      requires Sorted(monitors)
      modifies this`queue
      ensures queue == old(queue) + Copies(Watchers(monitors, id), id, data)
    {
      var pos := Bound(id, false);
      var end := Bound(id, true);
      WatchersNone(monitors[..pos], id);
      CopyRange(pos, end, id, data);
      NoneBehind(monitors, end, id);
    }

    lemma NoneBehind(s: seq<Watch>, end: nat, id: int)
      requires end <= |s| && forall k :: end <= k < |s| ==> id < s[k].interfaceID
      ensures Watchers(s[..end], id) == Watchers(s, id)
    {
      WatchersNone(s[end..], id);
      WatchersAppend(s[..end], s[end..], id);
      assert s == s[..end] + s[end..];
    }

    /** Copies for the entries of one key, which the range covers. */
    method CopyRange(start: nat, end: nat, id: int, data: seq<bv8>)
      requires start <= end <= |monitors| && Watchers(monitors[..start], id) == []
      requires forall k :: start <= k < end ==> monitors[k].interfaceID == id
      modifies this`queue
      ensures queue == old(queue) + Copies(Watchers(monitors[..end], id), id, data)
    {
      var pos := start;
      while pos < end
        invariant start <= pos <= end
        invariant queue == old(queue) + Copies(Watchers(monitors[..pos], id), id, data)
      {
        queue := queue + [Outgoing(monitors[pos].socket, id, data)];
        NextWatcher(monitors, pos, id, data);
        pos := pos + 1;
      }
    }

    /** Relaying time data of a checked model: one copy for each monitor of the source
        interface, carrying the identity of the source, and the message itself for the peer.
        The monitor lookup stays within the interfaces exactly when the source is connected
        or no monitor is to be served any more; without a connection the message itself is
        then queued for no socket. */
    method RelayTimeData(message: Message) returns (inBounds: bool)
      requires Valid() && Exclusive(model.connections) && 0 <= message.interfaceID < |model.interfaces|
      modifies this`queue, message`socketHandle, message`interfaceID
      ensures inBounds <==> monitorsDisconnected || LinkOf(model.connections, old(message.interfaceID)) >= 0
      ensures !inBounds ==> queue == old(queue)
      ensures inBounds ==>
        var source := old(message.interfaceID);
        var dest := LinkOf(model.connections, source);
        && dest < |model.interfaces|
        && queue == old(queue)
           + (if monitorsDisconnected then [] else Copies(Watchers(log, source), source, message.data))
           + [Outgoing(SocketFor(dest), dest, message.data)]
    {
      ConnectionTouches(model.connections, message.interfaceID);
      if LinkOf(model.connections, message.interfaceID) >= 0 {
        ExclusiveServes(model.connections, ConnectionOf(model.connections, message.interfaceID));
      }
      MarshalMessage(message);
      inBounds := ForwardToMonitor(message);
      if inBounds {
        queue := queue + [Outgoing(message.socketHandle, message.interfaceID, message.data)];
      }
    }

    /** The socket of the component that owns an interface, or none. */
    function SocketFor(i: int): int
      requires Valid() && i < |model.interfaces|
      reads this, model
    {
      if i < 0 then -1 else model.components[model.interfaces[i].component].socket
    }
  }
}
