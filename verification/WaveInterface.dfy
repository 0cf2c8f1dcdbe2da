/** One end of a one-dimensional connection: the received and the damped waves kept in
    sliding windows, the send buffer, and the two clocks of the time protocol. */
module WaveInterface {
  import opened Samples
  import opened WaveHistory
  import opened WaveWindows
  import opened WaveValues
  import opened TimeProtocol

  /** What storing `item` does to an interface, its socket and its wish to be taken down:
      in a simulation what the time protocol says, in data request mode an immediate
      sending and the end of the work. */
  ghost predicate Stores(p: Params, id: nat, item: Sample, before: (Ifc, seq<Packet>, bool),
                         after: (Ifc, seq<Packet>, bool))
  {
    var f := before.0;
    if p.mode <= 0.0 then
      after == (Offer(f, p.delay, item), before.1 + Sending(f, p.delay, id, item), before.2)
    else
      && after.0 == f.(lastSend := item.time, buffer := [],
                       offered := f.offered + [item], sent := f.sent + (f.buffer + [item]))
      && after.1 == before.1 + [Packet(id, f.buffer + [item])]
      && after.2
  }

  class Interface {
    const id: nat
    const params: Params
    var lastSendTime: real
    var nextRecvTime: real
    var currentInterval: nat
    var waitForShutdown: bool
    var initial: Initial
    var timeData: seq<Sample>
    var dampedTimeData: seq<Sample>
    var dataToSend: seq<Sample>
    var socket: seq<Packet>

    // samples dropped from the two windows, all samples ever set and sent, and the time
    // of the last motion
    ghost var gone: seq<Sample>
    ghost var dampedGone: seq<Sample>
    ghost var offered: seq<Sample>
    ghost var sent: seq<Sample>
    ghost var clock: real

    /** What the answers depend on. */
    ghost function Now(): History
      reads `gone, `timeData, `dampedGone, `dampedTimeData, `clock, `currentInterval
    {
      History(gone, timeData, dampedGone, dampedTimeData, clock, currentInterval)
    }

    /** The part of the state that the time protocol is about. */
    ghost function Abstract(): Ifc
      reads `lastSendTime, `nextRecvTime, `dataToSend, `offered, `sent, `gone, `timeData
    {
      Ifc(lastSendTime, nextRecvTime, dataToSend, offered, sent, gone + timeData)
    }

    /** Everything that setting motion shows to the outside. */
    ghost function Outside(): (Ifc, seq<Packet>, bool)
      reads `lastSendTime, `nextRecvTime, `dataToSend, `offered, `sent, `gone, `timeData, `socket, `waitForShutdown
    {
      (Abstract(), socket, waitForShutdown)
    }

    constructor (id: nat, params: Params, startTime: real)
      ensures this.id == id && this.params == params && Now() == History([], [], [], [], startTime, 0)
      ensures Abstract() == Ifc(startTime, startTime + params.delay, [], [], [], [])
      ensures socket == [] && !waitForShutdown && initial == Initial(0.0, 0.0)
    {
      this.id := id;
      this.params := params;
      lastSendTime := startTime;
      nextRecvTime := startTime + params.delay;
      currentInterval := 0;
      waitForShutdown := false;
      initial := Initial(0.0, 0.0);
      timeData, dampedTimeData, dataToSend, socket := [], [], [], [];
      gone, dampedGone, offered, sent := [], [], [], [];
      clock := startTime;
    }

    /** Searching one queue, starting from the interval that either queue left behind. Where
        that does not divide by zero, it finds what a search of the whole queue finds. */
    method Lookup(data: seq<Sample>, request: Sample, onlyForce: bool) returns (r: Sample)
      requires !Divides(data, request.time, currentInterval)
      modifies this`currentInterval
      ensures r == Fill(Found(data, request.time, old(currentInterval)), request, onlyForce, params.origin)
      ensures OrderedStamps(data) ==>
        Determined(data, request.time) && r == Reference(data, request, onlyForce, params.origin)
      ensures currentInterval == LeftBehind(data, request.time, old(currentInterval))
    {
      var time := request.time;
      var size := |data|;
      if OrderedStamps(data) {
        FoundIsSelect(data, time, currentInterval);
      }
      if size == 0 {
        r := request.(wave := 0.0, position := params.origin, time := TIME_WITHOUT_DATA);
        return;
      }
      if currentInterval >= size {
        currentInterval := size - 1;
      }
      if data[0].time <= time && time < data[size - 1].time {
        currentInterval := FindInterval(data, time, currentInterval);
        r := Interpolate(request, data[currentInterval], data[currentInterval + 1], onlyForce);
      } else if time <= data[0].time {
        r := data[0];
      } else if time <= data[size - 1].time + TOLERANCE {
        r := data[size - 1];
      } else if size > 1 {
        r := Interpolate(request, data[size - 2], data[size - 1], onlyForce);
      } else {
        r := data[0];
      }
    }

    method FindUndamped(time: real) returns (r: Sample)
      requires !Divides(timeData, RequestAt(params, time).time, currentInterval)
      modifies this`currentInterval
      ensures r == old(UndampedFrom(params, Now(), time))
      ensures currentInterval == old(IndexBetween(params, Now(), time))
    {
      r := Lookup(timeData, RequestAt(params, time), false);
    }

    /** Mixes the damped wave into the answer, when there is one. */
    method MixDamped(answer: Sample) returns (r: Sample)
      requires UsesDamping(params, answer, dampedTimeData) ==>
        !Divides(dampedTimeData, DampedRequest(params, answer).time, currentInterval)
      modifies this`currentInterval
      ensures
        if UsesDamping(params, answer, dampedTimeData) then
          && r == Mix(params, answer, DampedFrom(params, dampedTimeData, answer, old(currentInterval)))
          && currentInterval == LeftBehind(dampedTimeData, DampedRequest(params, answer).time, old(currentInterval))
        else r == answer && currentInterval == old(currentInterval)
    {
      r := answer;
      if params.alpha > 0.0 && r.time != TIME_WITHOUT_DATA && |dampedTimeData| > 0 {
        var buf := Lookup(dampedTimeData, DampedRequest(params, answer), true);
        r := Mix(params, r, buf);
      }
    }

    /** The windows hold what is needed, and the request is one they were kept for. */
    ghost predicate Exact(time: real)
      reads `gone, `timeData, `dampedGone, `dampedTimeData, `clock, `currentInterval
    {
      && Holds(params, Now()) && Grounded(params, Now(), time)
      && Answerable(params, gone + timeData, dampedGone + dampedTimeData, RequestAt(params, time))
    }

    /** The answer from the full histories. */
    ghost function AnswerAt(time: real): Sample
      requires Exact(time)
      reads `gone, `timeData, `dampedGone, `dampedTimeData, `clock, `currentInterval
    {
      Answer(params, gone + timeData, dampedGone + dampedTimeData, RequestAt(params, time))
    }

    /** The answer from the two windows, which is the one the full histories give. */
    method GetTimeData(time: real) returns (r: Sample)
      requires !Dividing(params, Now(), time)
      modifies this`currentInterval
      ensures r == old(WindowAnswer(params, Now(), time)) && Now() == old(After(params, Now(), Asked(time)))
      ensures old(Exact(time)) ==> r == old(AnswerAt(time))
    {
      if Exact(time) {
        AnswerRefines(params, Now(), time);
      }
      r := FindUndamped(time);
      r := MixDamped(r);
    }

    method GetForce(time: real, speed: real) returns (force: real)
      requires !Dividing(params, Now(), time)
      modifies this`currentInterval
      ensures force == Force(params, initial, speed, old(WindowAnswer(params, Now(), time)))
      ensures Acts(params, initial, speed, old(WindowAnswer(params, Now(), time)), force)
      ensures Now() == old(After(params, Now(), Asked(time)))
      ensures old(Exact(time)) ==> force == Force(params, initial, speed, old(AnswerAt(time)))
    {
      ForceActs(params, initial, speed, WindowAnswer(params, Now(), time));
      var request := GetTimeData(time);
      force := initial.force;
      if request.time != TIME_WITHOUT_DATA {
        force := request.wave - params.zf * if params.hydraulic then -speed else speed;
      }
    }

    /** Appends a received packet and moves the time up to which requests are covered. */
    method UnpackTimeData(samples: seq<Sample>)
      requires samples != []
      modifies this`timeData, this`nextRecvTime
      ensures Now() == old(After(params, Now(), Arrived(samples)))
      ensures Abstract() == Unpack(old(Abstract()), params.delay, samples)
    {
      Regroup(gone, timeData, samples);
      AppendTimeData(samples);
      nextRecvTime := timeData[|timeData| - 1].time + params.delay;
    }

    method AppendTimeData(samples: seq<Sample>)
      modifies this`timeData
      ensures timeData == old(timeData) + samples
    {
      var i := 0;
      while i < |samples|
        invariant i <= |samples| && timeData == old(timeData) + samples[..i]
      {
        timeData := timeData + [samples[i]];
        i := i + 1;
      }
    }

    /** The sample that setting motion at `time` produces. */
    ghost function ItemAt(time: real, position: real, speed: real): Sample
      requires !Dividing(params, Now(), time)
      reads `gone, `timeData, `dampedGone, `dampedTimeData, `clock, `currentInterval, `initial
    {
      Sample(time, position, speed, OutgoingWave(params, initial, speed, WindowAnswer(params, Now(), time)))
    }

    lemma ItemOffers(time: real, position: real, speed: real)
      requires !Dividing(params, Now(), time)
      ensures Offers(params, initial, WindowAnswer(params, Now(), time), time, position, speed,
                     ItemAt(time, position, speed))
    {
      OutgoingSends(params, initial, speed, WindowAnswer(params, Now(), time));
    }

    /** For requests the windows were kept for, it is the one that the full histories give. */
    lemma ItemFromHistories(time: real, position: real, speed: real)
      requires !Dividing(params, Now(), time) && Exact(time)
      ensures ItemAt(time, position, speed)
           == Sample(time, position, speed, OutgoingWave(params, initial, speed, AnswerAt(time)))
    {
      AnswerRefines(params, Now(), time);
    }

    /** Setting motion stores the outgoing sample, remembers the answer for damping, sends
        when the buffer is due, and drops what no later request can need. */
    method SetTimeData(time: real, position: real, speed: real)
      requires !Dividing(params, Now(), time)
      modifies this`currentInterval, this`timeData, this`dampedTimeData, this`gone, this`dampedGone, this`clock,
        this`dataToSend, this`offered, this`lastSendTime, this`socket, this`sent, this`waitForShutdown
      ensures Now() == old(After(params, Now(), Moved(time)))
      ensures Stores(params, id, old(ItemAt(time, position, speed)), old(Outside()), Outside())
      ensures
        offered != [] && Offers(params, initial, old(WindowAnswer(params, Now(), time)), time, position, speed,
                                offered[|offered| - 1])
    {
      ItemOffers(time, position, speed);
      ghost var before := Outside();
      var item := ComputeItem(time, position, speed);
      assert Outside() == before;
      StoreItem(item);
      ghost var after := Outside();
      CleanQueues(time);
      assert Outside() == after;
    }

    method ComputeItem(time: real, position: real, speed: real) returns (item: Sample)
      requires !Dividing(params, Now(), time)
      modifies this`currentInterval, this`dampedTimeData
      ensures Now() == old(Stored(params, Now(), time))
      ensures item == old(ItemAt(time, position, speed))
    {
      var request := GetTimeData(time);
      RememberAnswer(request);
      var wave := WaveToSend(speed, request);
      item := Sample(time, position, speed, wave);
    }

    method RememberAnswer(request: Sample)
      modifies this`dampedTimeData
      ensures dampedTimeData == Remember(params, old(dampedTimeData), request)
    {
      if params.alpha > 0.0 && request.time != TIME_WITHOUT_DATA {
        dampedTimeData := dampedTimeData + [request];
      }
    }

    method WaveToSend(speed: real, request: Sample) returns (wave: real)
      ensures wave == OutgoingWave(params, initial, speed, request)
    {
      wave := if params.hydraulic then initial.force + params.zf * initial.flow
              else initial.force - params.zf * initial.flow;
      if request.time != TIME_WITHOUT_DATA {
        wave := request.wave - params.zf * if params.hydraulic then -speed else speed;
      }
      wave := if params.hydraulic then wave + params.zf * speed else -wave + params.zf * speed;
    }

    method StoreItem(item: Sample)
      modifies this`dataToSend, this`offered, this`lastSendTime, this`socket, this`sent, this`waitForShutdown
      ensures Stores(params, id, item, old(Outside()), Outside())
    {
      dataToSend := dataToSend + [item];
      offered := offered + [item];
      if item.time >= lastSendTime + params.delay / 2.0 || params.mode > 0.0 {
        SendAllData();
      } else {
        assert socket + [] == socket;
      }
    }

    method SendAllData()
      requires dataToSend != []
      modifies this`lastSendTime, this`socket, this`sent, this`dataToSend, this`waitForShutdown
      ensures lastSendTime == old(dataToSend)[|old(dataToSend)| - 1].time && dataToSend == []
      ensures socket == old(socket) + [Packet(id, old(dataToSend))] && sent == old(sent) + old(dataToSend)
      ensures waitForShutdown == (old(waitForShutdown) || params.mode > 0.0)
    {
      lastSendTime := dataToSend[|dataToSend| - 1].time;
      socket := socket + [Packet(id, dataToSend)];
      sent := sent + dataToSend;
      dataToSend := [];
      if params.mode > 0.0 {
        waitForShutdown := true;
      }
    }

    /** Both windows are cleaned up to what requests from `time` on need; the full histories
        stay what they were. */
    method CleanQueues(time: real)
      modifies this`timeData, this`dampedTimeData, this`gone, this`dampedGone, this`clock
      ensures Now() == old(Cleaned(params, Now(), time)) && gone + timeData == old(gone + timeData)
      ensures dampedGone + dampedTimeData == old(dampedGone + dampedTimeData)
    {
      ghost var t := CleanedParts(params, Now(), time);
      timeData := CleanTimeQueue(timeData, time - params.delay);
      dampedTimeData := CleanTimeQueue(dampedTimeData, time - params.delay - DampDelay(params.delay));
      gone, dampedGone, clock := t.gone, t.dampedGone, time;
      assert Now() == t;
    }

    static method CleanTimeQueue(data: seq<Sample>, cleanTime: real) returns (r: seq<Sample>)
      ensures r == Clean(data, cleanTime)
    {
      r := data;
      while |r| > 3 && cleanTime > r[2].time
        invariant Clean(r, cleanTime) == Clean(data, cleanTime)
        decreases |r|
      {
        r := r[1..];
      }
    }
  }
}
