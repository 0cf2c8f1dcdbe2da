/** The manager's reader thread from the first connection to the last close permission:
    the start-up rounds, the answers to the check requests, relaying, and closing.
    What arrives when is a choice of the environment. */
module ManagerSession {
  import opened SessionLog
  import opened SessionStory

  class Manager {
    const n: nat
    var connected: seq<bool>
    var ready: seq<bool>
    var numToRegister: int
    var numCheckModel: int
    var active: set<Socket>
    var closedSockets: seq<nat>
    ghost var closed: seq<bool>
    ghost var log: seq<Event>

    /** The counters count, and every component is in the phase its flags tell. */
    ghost predicate Counting()
      reads `connected, `ready, `numToRegister, `numCheckModel, `log
    {
      && |connected| == n && Sensible(connected, ready) && Logged(log, StartPhases(connected, ready))
      && numToRegister == n - Count(connected) && numCheckModel == Count(ready)
    }

    /** The invariant of the start-up loop. */
    ghost predicate Starting()
      reads `connected, `ready, `numToRegister, `numCheckModel, `active, `log
    {
      && Counting()
      && (0 < n ==> active == Expecting(connected, ready, 0) + if numToRegister > 0 then {Accepting} else {})
    }

    /** Nobody has asked to close yet. */
    ghost predicate AllOpen()
      reads `closedSockets, `closed
    {
      closedSockets == [] && closed == seq(n, _ => false)
    }

    predicate Unfinished()
      reads `numToRegister, `numCheckModel
    {
      numToRegister > 0 || numCheckModel < n
    }

    constructor (n: nat)
      ensures Starting() && AllOpen() && this.n == n && log == []
    {
      this.n := n;
      connected, ready := seq(n, _ => false), seq(n, _ => false);
      numToRegister, numCheckModel := n, 0;
      active := {Accepting};
      closedSockets, closed, log := [], seq(n, _ => false), [];
      new;
      CountBounds(connected);
    }

    /** While the loop goes on there is a socket to select on; when it ends, everybody is
        connected and ready. */
    lemma StartupLoop()
      requires Starting()
      ensures Unfinished() ==> active != {}
      ensures !Unfinished() ==> forall c :: 0 <= c < n ==> connected[c] && ready[c]
    {
      CountBounds(connected);
      CountBounds(ready);
      if numToRegister == 0 && numCheckModel < n {
        var c :| 0 <= c < n && !ready[c];
        assert Of(c) in Expecting(connected, ready, 0);
      }
    }

    /** A check request: the component has registered everything and waits. */
    method SetReady(c: nat)
      requires Counting() && c < n && connected[c] && !ready[c]
      modifies this`ready, this`numCheckModel, this`log
      ensures Counting() && ready == old(ready)[c := true] && log == old(log) + Handled((c, Check))
    {
      Readied(connected, ready, log, c);
      log := log + [Got(c, Check)];
      ready := ready[c := true];
      numCheckModel := numCheckModel + 1;
    }

    /** The registration of an interface or a parameter. */
    method Answer(c: nat)
      requires Counting() && c < n && connected[c] && !ready[c]
      modifies this`active, this`log
      ensures Counting() && active == old(active) + {Of(c)} && log == old(log) + Handled((c, Register))
    {
      Answered(connected, ready, log, c);
      log := log + [Got(c, Register)] + [Put(c, Registered)];
      active := active + {Of(c)};
    }

    /** A new connection, whose first message names the component. */
    method Accept(c: nat)
      requires Counting() && c < n && !connected[c]
      modifies this`connected, this`numToRegister, this`active, this`log
      ensures Counting() && connected == old(connected)[c := true] && numToRegister == old(numToRegister) - 1
      ensures active == old(active) + {Of(c)} && log == old(log) + Handled((c, Join))
    {
      Welcomed(connected, ready, log, c);
      log := log + [Got(c, Join)] + [Put(c, Joined)];
      connected := connected[c := true];
      numToRegister := numToRegister - 1;
      active := active + {Of(c)};
    }

    /** One round of the start-up loop, for the selected sockets that have data, the next
        message of each, and the component that connects if one does. */
    method Round(hasData: set<Socket>, request: seq<Request>, joining: nat)
      requires Starting() && Unfinished() && hasData <= active && Fits(Arrivals(hasData, request, joining), n)
      requires Accepting in hasData ==> joining < n && !connected[joining]
      modifies this`connected, this`ready, this`numToRegister, this`numCheckModel, this`active, this`log
      ensures Starting()
      ensures ready == ReadyAfter(old(connected), old(ready), hasData, request, 0)
      ensures connected == if Accepting in hasData then old(connected)[joining := true] else old(connected)
      ensures log == old(log) + AllHandled(Read(old(connected), old(ready), hasData, request, 0)
                                           + if Accepting in hasData then [(joining, Join)] else [])
    {
      Serve(hasData, request, joining);
      AwaitOthers();
    }

    method Serve(hasData: set<Socket>, request: seq<Request>, joining: nat)
      requires Counting() && Fits(Arrivals(hasData, request, joining), n)
      requires Accepting in hasData ==> joining < n && !connected[joining]
      modifies this`connected, this`ready, this`numToRegister, this`numCheckModel, this`active, this`log
      ensures Counting() && active == Expecting(connected, ready, 0) && 0 <= numToRegister
      ensures ready == ReadyAfter(old(connected), old(ready), hasData, request, 0)
      ensures connected == if Accepting in hasData then old(connected)[joining := true] else old(connected)
      ensures log == old(log) + AllHandled(Read(old(connected), old(ready), hasData, request, 0)
                                           + if Accepting in hasData then [(joining, Join)] else [])
    {
      JoinStep(log, Read(connected, ready, hasData, request, 0), Accepting in hasData, joining);
      ServeComponents(hasData, request);
      AcceptConnection(Accepting in hasData, joining);
    }

    /** As long as components are missing the next round waits for connections too. */
    method AwaitOthers()
      requires Counting() && active == Expecting(connected, ready, 0) && 0 <= numToRegister
      modifies this`active
      ensures Starting()
    {
      if numToRegister != 0 {
        active := active + {Accepting};
      }
    }

    lemma NonNegative()
      requires Counting()
      ensures 0 <= numToRegister && (numToRegister == 0 ==> forall c :: 0 <= c < n ==> connected[c])
    {
      CountBounds(connected);
    }

    /** The part of a round that deals with a new connection. */
    method AcceptConnection(waiting: bool, joining: nat)
      requires Counting() && active == Expecting(connected, ready, 0)
      requires waiting ==> joining < n && !connected[joining]
      modifies this`connected, this`numToRegister, this`active, this`log
      ensures Counting() && active == Expecting(connected, ready, 0) && 0 <= numToRegister
      ensures connected == if waiting then old(connected)[joining := true] else old(connected)
      ensures if waiting then log == old(log) + Handled((joining, Join)) else log == old(log)
    {
      NonNegative();
      if numToRegister > 0 && waiting {
        ExpectingJoined(connected, ready, joining);
        Accept(joining);
      }
      NonNegative();
    }

    /** What the sockets from `from` on have brought, when `was` told who was ready before. */
    ghost predicate ServedFrom(from: nat, was: seq<bool>, before: seq<Event>, hasData: set<Socket>,
                               request: seq<Request>)
      reads `connected, `ready, `active, `log
    {
      && |connected| == |ready| == |was| == |request| && active == Expecting(connected, ready, from)
      && ready == ReadyAfter(connected, was, hasData, request, from)
      && log == before + AllHandled(Read(connected, was, hasData, request, from))
    }

    /** The part of a round that deals with the components already connected. */
    method ServeComponents(hasData: set<Socket>, request: seq<Request>)
      requires Counting() && Fits(Arrivals(hasData, request, 0), n)
      modifies this`ready, this`numCheckModel, this`active, this`log
      ensures Counting() && active == Expecting(connected, ready, 0)
      ensures ready == ReadyAfter(connected, old(ready), hasData, request, 0)
      ensures log == old(log) + AllHandled(Read(connected, old(ready), hasData, request, 0))
    {
      active := {};
      NoneServed(connected, ready, hasData, request, log);
      var c := n - 1;
      while c >= 0
        invariant -1 <= c < n && Counting() && ServedFrom(c + 1, old(ready), old(log), hasData, request)
      {
        ServeNext(c, old(ready), old(log), hasData, request);
        c := c - 1;
      }
    }

    method ServeNext(c: nat, ghost was: seq<bool>, ghost before: seq<Event>, hasData: set<Socket>,
                     request: seq<Request>)
      requires Counting() && c < n && Fits(Arrivals(hasData, request, 0), n)
      requires ServedFrom(c + 1, was, before, hasData, request)
      modifies this`ready, this`numCheckModel, this`active, this`log
      ensures Counting() && ServedFrom(c, was, before, hasData, request)
    {
      ServedOne(before, connected, was, ready, hasData, request, c);
      ServeComponent(c, Of(c) in hasData, request[c]);
    }

    /** One component in a round: its next message, or the wish to be selected again. */
    method ServeComponent(c: nat, waiting: bool, request: Request)
      requires Counting() && c < n && (request == Check || request == Register)
      modifies this`ready, this`numCheckModel, this`active, this`log
      ensures Counting()
      ensures ready == if connected[c] && !old(ready)[c] && waiting && request == Check then old(ready)[c := true]
                       else old(ready)
      ensures if connected[c] && !ready[c] then active == old(active) + {Of(c)} else active == old(active)
      ensures if connected[c] && !old(ready)[c] && waiting then log == old(log) + Handled((c, request))
              else log == old(log)
    {
      if connected[c] && !ready[c] {
        if !waiting {
          active := active + {Of(c)};
        } else if request == Check {
          SetReady(c);
        } else {
          Answer(c);
        }
      }
    }

    // ---- running ----

    /** Everybody has been answered, and has closed or not. */
    ghost predicate Running()
      reads this
    {
      |closed| == n && Logged(log, RunPhases(closed)) && Lists(closedSockets, closed)
    }

    /** The answers to the check requests. */
    method AnswerChecks()
      requires Starting() && !Unfinished() && AllOpen()
      modifies this`log
      ensures Running() && log == old(log) + CheckAnswers(n, 0)
    {
      StartupLoop();
      CountBounds(closed);
      assert StartPhases(connected, ready) == AnswerPhases(n, n - 1);
      var c := n - 1;
      while c >= 0
        invariant -1 <= c < n && Logged(log, AnswerPhases(n, c)) && log == old(log) + CheckAnswers(n, c + 1)
      {
        Regroup(old(log), CheckAnswers(n, c + 1), [Put(c, Checked)]);
        CheckAnswered(n, log, c);
        log := log + [Put(c, Checked)];
        c := c - 1;
      }
      assert AnswerPhases(n, -1) == RunPhases(closed);
    }

    /** A message from a component that is still running. */
    method Relay(c: nat, request: Request)
      requires Running() && c < n && c !in closedSockets
      requires request == Close || (request.Data? && request.dest < n)
      modifies this`closedSockets, this`closed, this`log
      ensures Running()
      ensures closedSockets == if request == Close then old(closedSockets) + [c] else old(closedSockets)
      ensures log == old(log) + Handled((c, request))
    {
      if request == Close {
        RequestClosing(c);
      } else {
        Relayed(closed, log, c, request.dest);
        log := log + [Got(c, request)] + [Put(request.dest, TimeData)];
      }
    }

    method RequestClosing(c: nat)
      requires Running() && c < n && c !in closedSockets
      modifies this`closedSockets, this`closed, this`log
      ensures Running() && closedSockets == old(closedSockets) + [c] && log == old(log) + Handled((c, Close))
    {
      ListsNext(closedSockets, closed, c);
      ClosingAsked(closed, log, c);
      log := log + [Got(c, Close)];
      closed := closed[c := true];
      closedSockets := closedSockets + [c];
    }

    /** The end of the session: permission for everybody, in the order of the requests. */
    method PermitClosing()
      requires Running() && |closedSockets| >= n
      modifies this`log
      ensures Logged(log, ClosePhases(n, [])) && log == old(log) + Permits(closedSockets)
    {
      EverybodyClosed();
      assert RunPhases(closed) == ClosePhases(n, closedSockets);
      var k := 0;
      while k < |closedSockets|
        invariant k <= |closedSockets| && Logged(log, ClosePhases(n, closedSockets[k..]))
        invariant log == old(log) + Permits(closedSockets[..k])
      {
        var c := closedSockets[k];
        PermitsNext(closedSockets, k);
        Regroup(old(log), Permits(closedSockets[..k]), [Permit(c)]);
        assert closedSockets[k..][1..] == closedSockets[k + 1..] && c in closedSockets;
        ClosePermitted(n, log, closedSockets[k..]);
        log := log + [Permit(c)];
        k := k + 1;
      }
      assert closedSockets[..k] == closedSockets;
    }

    // ---- the whole session ----

    /** The flags are those of having read the first `k` rounds, and so is the log; the last of
        them was read because somebody was missing. */
    ghost predicate HasRead(was: seq<bool>, asked: seq<bool>, before: seq<Event>, rounds: seq<Arrivals>, k: nat)
      reads `connected, `ready, `log
    {
      && |was| == |asked| == n && k <= |rounds| && AllFit(rounds, n)
      && connected == Connected(was, rounds, k) && ready == Ready(was, asked, rounds, k)
      && log == before + AllHandled(ReadBy(was, asked, rounds, k))
      && (k > 0 ==> Missing(was, asked, rounds, k - 1))
    }

    /** The rounds of the start-up loop, as long as messages arrive and somebody is missing. It is
        complete exactly when every component has connected and, in a later round, has asked for
        the check. */
    method RunStartupProtocol(rounds: seq<Arrivals>) returns (complete: bool, served: nat)
      requires Starting() && AllFit(rounds, n)
      modifies this`connected, this`ready, this`numToRegister, this`numCheckModel, this`active, this`log
      ensures Starting() && (complete <==> !Unfinished())
      ensures HasRead(old(connected), old(ready), old(log), rounds, served)
      ensures complete || served == |rounds|
      ensures complete <==> forall c: nat :: c < n ==> AskedBy(old(connected), old(ready), rounds, |rounds|, c)
    {
      ghost var was, asked, before := connected, ready, log;
      NothingRead(rounds);
      served := ServeRounds(rounds, was, asked, before);
      complete := !Unfinished();
      WhoHasAsked(was, asked, before, rounds, served);
    }

    method ServeRounds(rounds: seq<Arrivals>, ghost was: seq<bool>, ghost asked: seq<bool>, ghost before: seq<Event>)
        returns (served: nat)
      requires Starting() && HasRead(was, asked, before, rounds, 0)
      modifies this`connected, this`ready, this`numToRegister, this`numCheckModel, this`active, this`log
      ensures Starting() && HasRead(was, asked, before, rounds, served)
      ensures Unfinished() ==> served == |rounds|
    {
      served := 0;
      while Unfinished() && served < |rounds|
        invariant Starting() && HasRead(was, asked, before, rounds, served)
      {
        StartupRound(rounds, served, was, asked, before);
        served := served + 1;
      }
    }

    lemma NothingRead(rounds: seq<Arrivals>)
      requires Counting() && AllFit(rounds, n)
      ensures HasRead(connected, ready, log, rounds, 0)
    {
      assert Connected(connected, rounds, 0) == connected;
      assert Ready(connected, ready, rounds, 0) == ready;
      assert log + [] == log;
    }

    lemma SomebodyMissing(was: seq<bool>, asked: seq<bool>, before: seq<Event>, rounds: seq<Arrivals>, k: nat)
      requires Starting() && HasRead(was, asked, before, rounds, k)
      ensures Unfinished() <==> Missing(was, asked, rounds, k)
    {
      CountBounds(connected);
      CountBounds(ready);
      assert forall c: nat :: c < n ==> ready[c] == AskedBy(was, asked, rounds, k, c);
    }

    lemma WhoHasAsked(was: seq<bool>, asked: seq<bool>, before: seq<Event>, rounds: seq<Arrivals>, served: nat)
      requires Starting() && HasRead(was, asked, before, rounds, served) && (Unfinished() ==> served == |rounds|)
      ensures !Unfinished() <==> forall c: nat :: c < n ==> AskedBy(was, asked, rounds, |rounds|, c)
    {
      SomebodyMissing(was, asked, before, rounds, served);
      forall c: nat | c < n && AskedBy(was, asked, rounds, served, c)
        ensures AskedBy(was, asked, rounds, |rounds|, c)
      {
        AskedLater(was, asked, rounds, served, c);
      }
    }

    /** One round with what arrives for it: only sockets that are selected are looked at, and a
        component that is connected already does not connect again. */
    method StartupRound(rounds: seq<Arrivals>, k: nat, ghost was: seq<bool>, ghost asked: seq<bool>,
                        ghost before: seq<Event>)
      requires Starting() && Unfinished() && k < |rounds| && HasRead(was, asked, before, rounds, k)
      modifies this`connected, this`ready, this`numToRegister, this`numCheckModel, this`active, this`log
      ensures Starting() && HasRead(was, asked, before, rounds, k + 1)
    {
      SomebodyMissing(was, asked, before, rounds, k);
      var a := rounds[k];
      var hasData := a.hasData * active;
      if !(a.joining < n && !connected[a.joining]) {
        hasData := hasData - {Accepting};
      }
      Selection(a, hasData);
      RoundMeans(before, was, asked, rounds, k, hasData);
      Round(hasData, a.request, a.joining);
    }

    /** Whoever still has something to say is selected. */
    lemma Selection(a: Arrivals, hasData: set<Socket>)
      requires Starting() && Unfinished()
      requires hasData == a.hasData * active - if a.joining < n && !connected[a.joining] then {} else {Accepting}
      ensures SessionStory.Selected(connected, ready, a, hasData)
    {
      CountBounds(connected);
    }

    /** The reader thread under any arrivals: starting up, answering, relaying until all have asked
        to close, and permitting that. It gets to the end exactly when everybody has connected,
        asked for the check and asked to close, and the model was accepted; and however far it
        gets, it has done just what the messages read ask for, and nobody out of turn. */
    method ReaderThreadRun(rounds: seq<Arrivals>, startupOK: bool, traffic: seq<(nat, Request)>)
        returns (complete: bool, started: bool, served: nat)
      requires Starting() && AllOpen() && AllFit(rounds, n)
      requires forall k :: 0 <= k < |traffic| ==> Sendable(traffic[k], n)
      modifies this
      ensures Barriers(log, n) && forall c: nat {:trigger PhaseOf(log, c)} :: c < n ==>
        PhaseOf(log, c) != Broken && (complete ==> PhaseOf(log, c) == Leaving)
      ensures |old(connected)| == |old(ready)| == n && served <= |rounds|
      ensures started <==> forall c: nat :: c < n ==> AskedBy(old(connected), old(ready), rounds, |rounds|, c)
      ensures complete <==> started && startupOK && forall c: nat :: c < n ==> (c, Close) in traffic
      ensures log == old(log)
        + Story(n, started, ReadBy(old(connected), old(ready), rounds, served), startupOK, traffic)
    {
      ghost var before, was, asked := log, connected, ready;
      started, served := RunStartupProtocol(rounds);
      ghost var read := ReadBy(was, asked, rounds, served);
      complete := false;
      if started {
        complete := Simulate(startupOK, traffic);
      } else {
        InOrder(log, StartPhases(connected, ready));
      }
      StoryEnds(before, started, read, startupOK, log, traffic);
    }

    /** The session once everybody has registered. */
    method Simulate(startupOK: bool, traffic: seq<(nat, Request)>) returns (complete: bool)
      requires Starting() && !Unfinished() && AllOpen()
      requires forall k :: 0 <= k < |traffic| ==> Sendable(traffic[k], n)
      modifies this`closedSockets, this`closed, this`log
      ensures Barriers(log, n) && forall c: nat {:trigger PhaseOf(log, c)} :: c < n ==>
        PhaseOf(log, c) != Broken && (complete ==> PhaseOf(log, c) == Leaving)
      ensures complete <==> startupOK && forall c: nat :: c < n ==> (c, Close) in traffic
      ensures log == old(log) + AfterStart(n, startupOK, traffic)
    {
      AnswerChecks();
      complete := false;
      ghost var answered := log;
      if startupOK {
        complete := RelayUntilClosed(traffic);
      }
      if complete {
        PermitClosing();
        EverybodyLeaves(log, n);
      } else {
        InOrder(log, RunPhases(closed));
      }
      PiecesAfterStart(old(log), n, startupOK, complete, traffic);
    }

    lemma StoryEnds(before: seq<Event>, started: bool, read: seq<(nat, Request)>, startupOK: bool, end: seq<Event>,
                    traffic: seq<(nat, Request)>)
      requires end == before + AllHandled(read) + if started then AfterStart(n, startupOK, traffic) else []
      ensures end == before + Story(n, started, read, startupOK, traffic)
    {
      Regroup(before, AllHandled(read), if started then AfterStart(n, startupOK, traffic) else []);
    }

    /** Relaying as long as messages come and somebody has not asked to close. */
    method RelayUntilClosed(traffic: seq<(nat, Request)>) returns (complete: bool)
      requires Running() && closedSockets == [] && forall k :: 0 <= k < |traffic| ==> Sendable(traffic[k], n)
      modifies this`closedSockets, this`closed, this`log
      ensures Running() && (complete <==> |closedSockets| >= n)
      ensures log == old(log) + AllHandled(Kept(traffic)) && closedSockets == Closers(Kept(traffic))
      ensures complete <==> forall c: nat :: c < n ==> (c, Close) in traffic
    {
      var k := 0;
      while |closedSockets| < n && k < |traffic|
        invariant k <= |traffic| && Running()
        invariant log == old(log) + AllHandled(Kept(traffic[..k])) && closedSockets == Closers(Kept(traffic[..k]))
      {
        var (c, request) := traffic[k];
        RelayNext(traffic, k, old(log));
        if c !in closedSockets {
          Relay(c, request);
        }
        k := k + 1;
      }
      complete := |closedSockets| >= n;
      AllClosed(traffic, k);
    }

    lemma RelayNext(traffic: seq<(nat, Request)>, k: nat, before: seq<Event>)
      requires k < |traffic| && closedSockets == Closers(Kept(traffic[..k]))
      ensures
        var m, kept := traffic[k], Kept(traffic[..k]);
        if m.0 in closedSockets then Kept(traffic[..k + 1]) == kept
        else
          && before + AllHandled(Kept(traffic[..k + 1])) == before + AllHandled(kept) + Handled(m)
          && Closers(Kept(traffic[..k + 1])) == Closers(kept) + if m.1 == Close then [m.0] else []
    {
      KeptNext(traffic, k);
      CloserAsked(traffic[..k], traffic[k].0);
      HandledNext(Kept(traffic[..k]), traffic[k]);
      ClosersNext(Kept(traffic[..k]), traffic[k]);
      Regroup(before, AllHandled(Kept(traffic[..k])), Handled(traffic[k]));
    }

    lemma EverybodyClosed()
      requires Running()
      ensures |closedSockets| >= n <==> forall c: nat :: c < n ==> c in closedSockets
    {
      CountBounds(closed);
    }

    lemma AllClosed(traffic: seq<(nat, Request)>, k: nat)
      requires Running() && k <= |traffic| && forall j :: 0 <= j < |traffic| ==> Sendable(traffic[j], n)
      requires closedSockets == Closers(Kept(traffic[..k])) && (|closedSockets| < n ==> k == |traffic|)
      ensures Kept(traffic) == Kept(traffic[..k])
      ensures |closedSockets| >= n <==> forall c: nat :: c < n ==> (c, Close) in traffic
    {
      EverybodyClosed();
      forall c: nat ensures c in closedSockets <==> (c, Close) in traffic[..k] {
        CloserAsked(traffic[..k], c);
      }
      if |closedSockets| >= n {
        KeptAll(traffic, k, n);
      } else {
        assert traffic[..k] == traffic;
      }
    }
  }
}
