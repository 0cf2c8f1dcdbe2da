/** What the manager's reader thread does in a session, as a log, and what order it keeps. */
module SessionLog {

  /** A socket the manager selects on: the one that accepts, or that of a component. */
  datatype Socket = Accepting | Of(component: nat)

  datatype Request = Join | Register | Check | Data(dest: nat) | Close

  datatype Reply = Joined | Registered | Checked | TimeData

  /** What the reader thread does, in order: receiving, queueing a message to be sent, and
      sending a close permission. */
  datatype Event = Got(component: nat, request: Request) | Put(to: nat, reply: Reply) | Permit(closed: nat)

  // ---- one component's view of a session ----

  /** What a component has been through; `Broken` once anything comes out of turn. */
  datatype Phase = Absent | Joining | Registering | Awaiting | Checking | Simulating | Closing | Leaving | Broken

  function Advance(p: Phase, c: nat, e: Event): Phase {
    match e
    case Got(d, r) =>
      if d != c then p
      else if p == Absent && r == Join then Joining
      else if p == Registering && r == Register then Awaiting
      else if p == Registering && r == Check then Checking
      else if p == Simulating && r.Data? then Simulating
      else if p == Simulating && r == Close then Closing
      else Broken
    case Put(d, r) =>
      if d != c then p
      else if p == Joining && r == Joined then Registering
      else if p == Awaiting && r == Registered then Registering
      else if p == Checking && r == Checked then Simulating
      else if (p == Simulating || p == Closing) && r == TimeData then p
      else Broken
    case Permit(d) => if d != c then p else if p == Closing then Leaving else Broken
  }

  function PhaseOf(log: seq<Event>, c: nat): Phase {
    if log == [] then Absent else Advance(PhaseOf(log[..|log| - 1], c), c, log[|log| - 1])
  }

  lemma PhaseNext(log: seq<Event>, e: Event, c: nat)
    ensures PhaseOf(log + [e], c) == Advance(PhaseOf(log, c), c, e)
  {
    assert (log + [e])[..|log|] == log;
  }

  lemma {:induction false} PhaseAsked(log: seq<Event>, c: nat)
    ensures PhaseOf(log, c) in {Checking, Simulating, Closing, Leaving} ==> Got(c, Check) in log
    ensures PhaseOf(log, c) in {Closing, Leaving} ==> Got(c, Close) in log
  {
    if log != [] {
      PhaseAsked(log[..|log| - 1], c);
      assert log[|log| - 1] in log;
    }
  }

  /** A session that is in order was in order all the time. */
  lemma {:induction false} InOrderBefore(log: seq<Event>, c: nat, k: nat)
    requires PhaseOf(log, c) != Broken && k <= |log|
    ensures PhaseOf(log[..k], c) != Broken
    decreases |log|
  {
    if k < |log| {
      InOrderBefore(log[..|log| - 1], c, k);
      assert log[..|log| - 1][..k] == log[..k];
    } else {
      assert log[..k] == log;
    }
  }

  lemma PhaseAt(log: seq<Event>, c: nat, k: nat)
    requires k < |log|
    ensures PhaseOf(log[..k + 1], c) == Advance(PhaseOf(log[..k], c), c, log[k])
  {
    assert log[..k + 1][..k] == log[..k];
  }

  /** A component that waits for the answer to its check request goes on waiting as long
      as nothing is queued for it. */
  lemma {:induction false} StillChecking(log: seq<Event>, c: nat, k: nat, j: nat)
    requires PhaseOf(log, c) != Broken && k < j <= |log| && log[k] == Got(c, Check)
    requires forall i :: k < i < j ==> !(log[i].Put? && log[i].to == c)
    ensures PhaseOf(log[..j], c) == Checking
    decreases j
  {
    InOrderBefore(log, c, j);
    PhaseAt(log, c, j - 1);
    if j > k + 1 {
      StillChecking(log, c, k, j - 1);
    }
  }

  /** The first message queued for a component after its check request is the answer: the
      component may take the next message it receives for that. */
  lemma NextMessageIsAnswer(log: seq<Event>, c: nat, k: nat, j: nat)
    requires PhaseOf(log, c) != Broken && k < j < |log| && log[k] == Got(c, Check)
    requires forall i :: k < i < j ==> !(log[i].Put? && log[i].to == c)
    requires log[j].Put? && log[j].to == c
    ensures log[j].reply == Checked
  {
    StillChecking(log, c, k, j);
    PhaseAt(log, c, j);
    InOrderBefore(log, c, j + 1);
  }

  lemma {:induction false} PhaseAnswered(log: seq<Event>, c: nat)
    ensures PhaseOf(log, c) in {Simulating, Closing, Leaving} ==> Put(c, Checked) in log
  {
    if log != [] {
      PhaseAnswered(log[..|log| - 1], c);
      assert log[|log| - 1] in log;
    }
  }

  /** Time data is queued for a component only after the answer to its check request. */
  lemma AnswerBeforeData(log: seq<Event>, c: nat, j: nat)
    requires PhaseOf(log, c) != Broken && j < |log| && log[j] == Put(c, TimeData)
    ensures Put(c, Checked) in log[..j]
  {
    PhaseAt(log, c, j);
    InOrderBefore(log, c, j + 1);
    PhaseAnswered(log[..j], c);
  }

  // ---- the two barriers ----

  ghost predicate AllAsked(log: seq<Event>, n: nat, r: Request) {
    forall c: nat :: c < n ==> Got(c, r) in log
  }

  /** An event that may only come after a request from everybody. */
  ghost predicate Permitted(log: seq<Event>, n: nat, e: Event) {
    && (e.Put? && e.reply == Checked ==> AllAsked(log, n, Check))
    && (e.Permit? ==> AllAsked(log, n, Close))
  }

  /** Every event of the log was permitted when it happened. */
  ghost predicate Barriers(log: seq<Event>, n: nat) {
    log == [] || (Barriers(log[..|log| - 1], n) && Permitted(log[..|log| - 1], n, log[|log| - 1]))
  }

  /** Nothing in the log answers a check before everybody has asked for it, and nothing
      permits closing before everybody has asked for that. */
  lemma {:induction false} BarrierAt(log: seq<Event>, n: nat, k: nat, c: nat)
    requires Barriers(log, n) && k < |log| && c < n
    ensures log[k].Put? && log[k].reply == Checked ==> Got(c, Check) in log[..k]
    ensures log[k].Permit? ==> Got(c, Close) in log[..k]
  {
    var init := log[..|log| - 1];
    if k < |init| {
      BarrierAt(init, n, k, c);
      assert init[..k] == log[..k];
    }
  }

  lemma BarriersNext(log: seq<Event>, n: nat, e: Event)
    requires Barriers(log, n) && Permitted(log, n, e)
    ensures Barriers(log + [e], n)
  {
    assert (log + [e])[..|log|] == log;
  }

  /** The number of components for which `b` holds. */
  function Count(b: seq<bool>): nat {
    if b == [] then 0 else Count(b[..|b| - 1]) + if b[|b| - 1] then 1 else 0
  }

  lemma {:induction false} CountChange(b: seq<bool>, i: nat)
    requires i < |b| && !b[i]
    ensures Count(b[i := true]) == Count(b) + 1
  {
    var last := |b| - 1;
    if i < last {
      CountChange(b[..last], i);
      assert b[i := true][..last] == b[..last][i := true];
    } else {
      assert b[i := true][..last] == b[..last];
    }
  }

  lemma {:induction false} CountBounds(b: seq<bool>)
    ensures Count(b) <= |b|
    ensures Count(b) == |b| <==> forall i :: 0 <= i < |b| ==> b[i]
    ensures Count(b) == 0 <==> forall i :: 0 <= i < |b| ==> !b[i]
  {
    if b != [] {
      var last := |b| - 1;
      var init := b[..last];
      CountBounds(init);
      assert forall i :: 0 <= i < last ==> init[i] == b[i];
      assert (forall i :: 0 <= i < |b| ==> b[i]) <==> (b[last] && forall i :: 0 <= i < last ==> init[i]);
      assert (forall i :: 0 <= i < |b| ==> !b[i]) <==> (!b[last] && forall i :: 0 <= i < last ==> !init[i]);
    }
  }

  /** The phase of a component during start-up. */
  function Expected(connected: bool, ready: bool): Phase {
    if ready then Checking else if connected then Registering else Absent
  }

  /** The sockets of connected components that are not ready yet, from `from` on. */
  ghost function Expecting(connected: seq<bool>, ready: seq<bool>, from: int): set<Socket>
    requires |connected| == |ready|
  {
    set c: nat | c < |connected| && from <= c && connected[c] && !ready[c] :: Of(c)
  }

  lemma ExpectingNext(connected: seq<bool>, ready: seq<bool>, ready': seq<bool>, c: nat)
    requires c < |connected| == |ready| == |ready'|
    requires forall d :: c < d < |ready| ==> ready'[d] == ready[d]
    ensures Expecting(connected, ready', c)
         == Expecting(connected, ready, c + 1) + if connected[c] && !ready'[c] then {Of(c)} else {}
  {
  }

  lemma ExpectingJoined(connected: seq<bool>, ready: seq<bool>, c: nat)
    requires c < |connected| == |ready| && !ready[c]
    ensures Expecting(connected[c := true], ready, 0) == Expecting(connected, ready, 0) + {Of(c)}
  {
  }

  /** A log that kept the barriers, and what it tells of each component. */
  ghost predicate Logged(log: seq<Event>, phase: seq<Phase>) {
    && Barriers(log, |phase|)
    && forall c: nat {:trigger PhaseOf(log, c)} :: c < |phase| ==> phase[c] == PhaseOf(log, c)
  }

  /** The next event. */
  lemma Note(log: seq<Event>, phase: seq<Phase>, e: Event) returns (next: seq<Phase>)
    requires Logged(log, phase) && Permitted(log, |phase|, e)
    ensures Logged(log + [e], next) && |next| == |phase|
    ensures forall c: nat :: c < |phase| ==> next[c] == Advance(phase[c], c, e)
  {
    BarriersNext(log, |phase|, e);
    forall c: nat | c < |phase| ensures PhaseOf(log + [e], c) == Advance(phase[c], c, e) {
      PhaseNext(log, e, c);
    }
    next := seq(|phase|, c requires 0 <= c < |phase| => Advance(phase[c], c, e));
  }

  lemma EverybodyAsked(log: seq<Event>, phase: seq<Phase>)
    requires Logged(log, phase)
    ensures (forall p <- phase :: p in {Checking, Simulating, Closing, Leaving}) ==> AllAsked(log, |phase|, Check)
    ensures (forall p <- phase :: p in {Closing, Leaving}) ==> AllAsked(log, |phase|, Close)
  {
    if forall p <- phase :: p in {Checking, Simulating, Closing, Leaving} {
      forall c: nat | c < |phase| ensures Got(c, Check) in log {
        PhaseAsked(log, c);
        assert phase[c] in phase && phase[c] == PhaseOf(log, c);
      }
    }
    if forall p <- phase :: p in {Closing, Leaving} {
      forall c: nat | c < |phase| ensures Got(c, Close) in log {
        PhaseAsked(log, c);
        assert phase[c] in phase && phase[c] == PhaseOf(log, c);
      }
    }
  }

  /** Only components that have connected can have asked for the check. */
  ghost predicate Sensible(connected: seq<bool>, ready: seq<bool>) {
    |connected| == |ready| && forall c :: 0 <= c < |ready| && ready[c] ==> connected[c]
  }

  /** During start-up every component is in the phase its flags tell. */
  ghost function StartPhases(connected: seq<bool>, ready: seq<bool>): (r: seq<Phase>)
    requires |connected| == |ready|
    ensures |r| == |ready|
  {
    seq(|ready|, c requires 0 <= c < |ready| => Expected(connected[c], ready[c]))
  }

  lemma Readied(connected: seq<bool>, ready: seq<bool>, log: seq<Event>, c: nat)
    requires Sensible(connected, ready) && Logged(log, StartPhases(connected, ready))
    requires c < |ready| && connected[c] && !ready[c]
    ensures Sensible(connected, ready[c := true])
    ensures Logged(log + [Got(c, Check)], StartPhases(connected, ready[c := true]))
    ensures Count(ready[c := true]) == Count(ready) + 1
  {
    var next := Note(log, StartPhases(connected, ready), Got(c, Check));
    assert next == StartPhases(connected, ready[c := true]);
    CountChange(ready, c);
  }

  lemma Answered(connected: seq<bool>, ready: seq<bool>, log: seq<Event>, c: nat)
    requires Sensible(connected, ready) && Logged(log, StartPhases(connected, ready))
    requires c < |ready| && connected[c] && !ready[c]
    ensures Logged(log + [Got(c, Register)] + [Put(c, Registered)], StartPhases(connected, ready))
  {
    var next := Note(log, StartPhases(connected, ready), Got(c, Register));
    next := Note(log + [Got(c, Register)], next, Put(c, Registered));
    assert next == StartPhases(connected, ready);
  }

  lemma Welcomed(connected: seq<bool>, ready: seq<bool>, log: seq<Event>, c: nat)
    requires Sensible(connected, ready) && Logged(log, StartPhases(connected, ready))
    requires c < |ready| && !connected[c]
    ensures Sensible(connected[c := true], ready)
    ensures Logged(log + [Got(c, Join)] + [Put(c, Joined)], StartPhases(connected[c := true], ready))
    ensures Count(connected[c := true]) == Count(connected) + 1
  {
    var next := Note(log, StartPhases(connected, ready), Got(c, Join));
    next := Note(log + [Got(c, Join)], next, Put(c, Joined));
    assert next == StartPhases(connected[c := true], ready);
    CountChange(connected, c);
  }

  /** Which components are ready once the sockets from `from` on have been looked at. */
  function ReadyAfter(connected: seq<bool>, ready: seq<bool>, hasData: set<Socket>, request: seq<Request>,
                      from: int): (r: seq<bool>)
    requires |connected| == |ready| == |request|
    ensures |r| == |ready|
  {
    seq(|ready|, c requires 0 <= c < |ready| =>
      ready[c] || (from <= c && connected[c] && Of(c) in hasData && request[c] == Check))
  }

  lemma ReadyNext(connected: seq<bool>, ready: seq<bool>, hasData: set<Socket>, request: seq<Request>, c: nat)
    requires c < |connected| == |ready| == |request|
    ensures
      var before := ReadyAfter(connected, ready, hasData, request, c + 1);
      && before[c] == ready[c]
      && ReadyAfter(connected, ready, hasData, request, c)
         == if connected[c] && Of(c) in hasData && request[c] == Check then before[c := true] else before
  {
    var before := ReadyAfter(connected, ready, hasData, request, c + 1);
    var after := ReadyAfter(connected, ready, hasData, request, c);
    if connected[c] && Of(c) in hasData && request[c] == Check {
      assert after == before[c := true];
    } else {
      assert after == before;
    }
  }

  /** The list of closed sockets names each closed component once. */
  ghost predicate Lists(list: seq<nat>, closed: seq<bool>) {
    && |list| == Count(closed)
    && (forall i, j :: 0 <= i < j < |list| ==> list[i] != list[j])
    && (forall c: nat :: c in list <==> c < |closed| && closed[c])
  }

  lemma ListsNext(list: seq<nat>, closed: seq<bool>, c: nat)
    requires Lists(list, closed) && c < |closed| && !closed[c]
    ensures Lists(list + [c], closed[c := true])
  {
    CountChange(closed, c);
    assert forall i :: 0 <= i < |list| ==> list[i] in list;
  }

  /** After the answers every component simulates until it has asked to close. */
  ghost function RunPhases(closed: seq<bool>): (r: seq<Phase>)
    ensures |r| == |closed|
  {
    seq(|closed|, c requires 0 <= c < |closed| => if closed[c] then Closing else Simulating)
  }

  lemma ClosingAsked(closed: seq<bool>, log: seq<Event>, c: nat)
    requires Logged(log, RunPhases(closed)) && c < |closed| && !closed[c]
    ensures Logged(log + [Got(c, Close)], RunPhases(closed[c := true]))
  {
    var next := Note(log, RunPhases(closed), Got(c, Close));
    assert next == RunPhases(closed[c := true]);
  }

  lemma Relayed(closed: seq<bool>, log: seq<Event>, c: nat, dest: nat)
    requires Logged(log, RunPhases(closed)) && c < |closed| && !closed[c] && dest < |closed|
    ensures Logged(log + [Got(c, Data(dest))] + [Put(dest, TimeData)], RunPhases(closed))
  {
    var next := Note(log, RunPhases(closed), Got(c, Data(dest)));
    next := Note(log + [Got(c, Data(dest))], next, Put(dest, TimeData));
    assert next == RunPhases(closed);
  }

  /** While the checks are answered, the components up to `c` still wait. */
  ghost function AnswerPhases(n: nat, c: int): (r: seq<Phase>)
    ensures |r| == n
  {
    seq(n, d requires 0 <= d < n => if d <= c then Checking else Simulating)
  }

  lemma CheckAnswered(n: nat, log: seq<Event>, c: nat)
    requires c < n && Logged(log, AnswerPhases(n, c))
    ensures Logged(log + [Put(c, Checked)], AnswerPhases(n, c - 1))
  {
    EverybodyAsked(log, AnswerPhases(n, c));
    var next := Note(log, AnswerPhases(n, c), Put(c, Checked));
    assert next == AnswerPhases(n, c - 1);
  }

  /** While closing is permitted, the components in the rest of the list still wait. */
  ghost function ClosePhases(n: nat, rest: seq<nat>): (r: seq<Phase>)
    ensures |r| == n
  {
    seq(n, d requires 0 <= d < n => if d in rest then Closing else Leaving)
  }

  lemma ClosePermitted(n: nat, log: seq<Event>, rest: seq<nat>)
    requires rest != [] && rest[0] < n && rest[0] !in rest[1..] && Logged(log, ClosePhases(n, rest))
    ensures Logged(log + [Permit(rest[0])], ClosePhases(n, rest[1..]))
  {
    EverybodyAsked(log, ClosePhases(n, rest));
    var next := Note(log, ClosePhases(n, rest), Permit(rest[0]));
    assert rest == [rest[0]] + rest[1..];
    assert next == ClosePhases(n, rest[1..]);
  }

  /** The session is in order, and whoever is in it is where `phases` tells. */
  lemma InOrder(log: seq<Event>, phases: seq<Phase>)
    requires Logged(log, phases) && forall p <- phases :: p != Broken
    ensures forall c: nat {:trigger PhaseOf(log, c)} :: c < |phases| ==> PhaseOf(log, c) != Broken
  {
    forall c: nat | c < |phases| ensures PhaseOf(log, c) != Broken {
      assert phases[c] in phases;
    }
  }

  lemma EverybodyLeaves(log: seq<Event>, n: nat)
    requires Logged(log, ClosePhases(n, []))
    ensures forall c: nat {:trigger PhaseOf(log, c)} :: c < n ==> PhaseOf(log, c) == Leaving
  {
  }

  /** What one selection finds: the sockets with data, the next message of each component,
      and the component that connects. */
  datatype Arrivals = Arrivals(hasData: set<Socket>, request: seq<Request>, joining: nat)

  ghost predicate Fits(a: Arrivals, n: nat) {
    |a.request| == n && forall c :: 0 <= c < n ==> a.request[c] == Check || a.request[c] == Register
  }

  ghost predicate AllFit(rounds: seq<Arrivals>, n: nat) {
    forall k :: 0 <= k < |rounds| ==> Fits(rounds[k], n)
  }

  /** What a running component may send. */
  ghost predicate Sendable(m: (nat, Request), n: nat) {
    m.0 < n && (m.1 == Close || (m.1.Data? && m.1.dest < n))
  }
}
