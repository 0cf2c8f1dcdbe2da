/** What a session has read and done, told from what arrives alone. */
module SessionStory {
  import opened SessionLog

  // ---- what is done with a message ----

  /** Receiving a message and what is queued for it: every registration is answered to its sender,
      time data goes to its destination, and check and close requests wait. */
  function Handled(m: (nat, Request)): seq<Event> {
    match m.1
    case Join => [Got(m.0, Join), Put(m.0, Joined)]
    case Register => [Got(m.0, Register), Put(m.0, Registered)]
    case Check => [Got(m.0, Check)]
    case Data(dest) => [Got(m.0, Data(dest)), Put(dest, TimeData)]
    case Close => [Got(m.0, Close)]
  }

  function AllHandled(ms: seq<(nat, Request)>): seq<Event> {
    if ms == [] then [] else AllHandled(ms[..|ms| - 1]) + Handled(ms[|ms| - 1])
  }

  lemma HandledNext(ms: seq<(nat, Request)>, m: (nat, Request))
    ensures AllHandled(ms + [m]) == AllHandled(ms) + Handled(m)
  {
    assert (ms + [m])[..|ms|] == ms;
  }

  lemma {:induction false} HandledJoined(ms: seq<(nat, Request)>, ns: seq<(nat, Request)>)
    ensures AllHandled(ms + ns) == AllHandled(ms) + AllHandled(ns)
    decreases |ns|
  {
    if ns == [] {
      assert ms + ns == ms;
    } else {
      var init, last := ns[..|ns| - 1], ns[|ns| - 1];
      assert ms + ns == (ms + init) + [last];
      HandledNext(ms + init, last);
      HandledJoined(ms, init);
      Regroup(AllHandled(ms), AllHandled(init), Handled(last));
    }
  }

  lemma Regroup(a: seq<Event>, b: seq<Event>, c: seq<Event>)
    ensures a + b + c == a + (b + c)
  {
  }

  /** Behind every request that has an answer comes that answer, to the component it is for. */
  lemma {:induction false} AnswerFollows(ms: seq<(nat, Request)>, k: nat)
    requires k < |AllHandled(ms)| && AllHandled(ms)[k].Got?
    ensures
      var log, c := AllHandled(ms), AllHandled(ms)[k].component;
      && (log[k].request == Join ==> k + 1 < |log| && log[k + 1] == Put(c, Joined))
      && (log[k].request == Register ==> k + 1 < |log| && log[k + 1] == Put(c, Registered))
      && (log[k].request.Data? ==> k + 1 < |log| && log[k + 1] == Put(log[k].request.dest, TimeData))
  {
    var init, last := ms[..|ms| - 1], ms[|ms| - 1];
    if k < |AllHandled(init)| {
      AnswerFollows(init, k);
    }
  }

  /** How many messages carry time data for component `d`. */
  function DataFor(ms: seq<(nat, Request)>, d: nat): nat {
    if ms == [] then 0 else DataFor(ms[..|ms| - 1], d) + if ms[|ms| - 1].1 == Data(d) then 1 else 0
  }

  /** Time data is neither lost nor made up: as much is queued for a component as was sent to it. */
  lemma {:induction false} DataKept(ms: seq<(nat, Request)>, d: nat)
    ensures multiset(AllHandled(ms))[Put(d, TimeData)] == DataFor(ms, d)
  {
    if ms != [] {
      DataKept(ms[..|ms| - 1], d);
      HandledData(ms[|ms| - 1], d);
      CountJoined(AllHandled(ms[..|ms| - 1]), Handled(ms[|ms| - 1]), Put(d, TimeData));
    }
  }

  lemma HandledData(m: (nat, Request), d: nat)
    ensures multiset(Handled(m))[Put(d, TimeData)] == if m.1 == Data(d) then 1 else 0
  {
  }

  lemma CountJoined(a: seq<Event>, b: seq<Event>, e: Event)
    ensures multiset(a + b)[e] == multiset(a)[e] + multiset(b)[e]
  {
  }

  // ---- what start-up reads ----

  /** A component connects in a round. */
  predicate Joins(a: Arrivals, c: nat) {
    Accepting in a.hasData && a.joining == c
  }

  /** A component sends its check request in a round. */
  predicate Asks(a: Arrivals, c: nat) {
    Of(c) in a.hasData && c < |a.request| && a.request[c] == Check
  }

  /** Before the k-th round component `c` has connected, if not before the first. */
  ghost predicate JoinedBy(was: seq<bool>, rounds: seq<Arrivals>, k: nat, c: nat)
    requires c < |was| && k <= |rounds|
  {
    was[c] || exists i :: 0 <= i < k && Joins(rounds[i], c)
  }

  /** ... and has asked for the check in a round after the one in which it connected. */
  ghost predicate AskedBy(was: seq<bool>, asked: seq<bool>, rounds: seq<Arrivals>, k: nat, c: nat)
    requires c < |was| == |asked| && k <= |rounds|
  {
    asked[c] || exists j :: 0 <= j < k && JoinedBy(was, rounds, j, c) && Asks(rounds[j], c)
  }

  ghost function Connected(was: seq<bool>, rounds: seq<Arrivals>, k: nat): (r: seq<bool>)
    requires k <= |rounds|
    ensures |r| == |was|
  {
    seq(|was|, c requires 0 <= c < |was| => JoinedBy(was, rounds, k, c))
  }

  ghost function Ready(was: seq<bool>, asked: seq<bool>, rounds: seq<Arrivals>, k: nat): (r: seq<bool>)
    requires |was| == |asked| && k <= |rounds|
    ensures |r| == |was|
  {
    seq(|was|, c requires 0 <= c < |was| => AskedBy(was, asked, rounds, k, c))
  }

  /** What a round reads from the components from `from` on, the last one first: one message of
      each that has connected, has not asked for the check and has data. */
  function Read(connected: seq<bool>, ready: seq<bool>, hasData: set<Socket>, request: seq<Request>, from: nat):
      seq<(nat, Request)>
    requires |connected| == |ready| == |request|
    decreases |connected| - from
  {
    if from >= |connected| then []
    else
      Read(connected, ready, hasData, request, from + 1)
      + if connected[from] && !ready[from] && Of(from) in hasData then [(from, request[from])] else []
  }

  /** ... and from a component that connects. */
  function Newcomer(connected: seq<bool>, a: Arrivals): seq<(nat, Request)> {
    if a.joining < |connected| && !connected[a.joining] && Joins(a, a.joining) then [(a.joining, Join)] else []
  }

  /** All that the first `k` rounds read. */
  ghost function ReadBy(was: seq<bool>, asked: seq<bool>, rounds: seq<Arrivals>, k: nat): seq<(nat, Request)>
    requires |was| == |asked| && k <= |rounds| && AllFit(rounds, |was|)
  {
    if k == 0 then []
    else
      var connected, ready := Connected(was, rounds, k - 1), Ready(was, asked, rounds, k - 1);
      ReadBy(was, asked, rounds, k - 1)
      + (Read(connected, ready, rounds[k - 1].hasData, rounds[k - 1].request, 0)
         + Newcomer(connected, rounds[k - 1]))
  }

  /** The senders come in descending order, down to `from`. */
  ghost predicate Descends(read: seq<(nat, Request)>, from: nat) {
    && (forall k :: 0 <= k < |read| ==> from <= read[k].0)
    && forall j, k :: 0 <= j < k < |read| ==> read[k].0 < read[j].0
  }

  lemma DescendsNext(read: seq<(nat, Request)>, m: (nat, Request))
    requires Descends(read, m.0 + 1)
    ensures Descends(read, m.0) && Descends(read + [m], m.0)
  {
  }

  /** A round reads from the later components first ... */
  lemma {:induction false} ReadInOrder(connected: seq<bool>, ready: seq<bool>, hasData: set<Socket>,
                                       request: seq<Request>, from: nat)
    requires |connected| == |ready| == |request|
    ensures Descends(Read(connected, ready, hasData, request, from), from)
    decreases |connected| - from
  {
    if from < |connected| {
      var later := Read(connected, ready, hasData, request, from + 1);
      ReadInOrder(connected, ready, hasData, request, from + 1);
      DescendsNext(later, (from, request[from]));
      assert later + [] == later;
    }
  }

  /** ... and from each that matters what it has sent. */
  lemma {:induction false} ReadFrom(connected: seq<bool>, ready: seq<bool>, hasData: set<Socket>,
                                    request: seq<Request>, from: nat, m: (nat, Request))
    requires |connected| == |ready| == |request|
    ensures m in Read(connected, ready, hasData, request, from) <==>
      && from <= m.0 < |connected| && connected[m.0] && !ready[m.0] && Of(m.0) in hasData && m.1 == request[m.0]
    decreases |connected| - from
  {
    if from < |connected| {
      ReadFrom(connected, ready, hasData, request, from + 1, m);
      InJoined(Read(connected, ready, hasData, request, from + 1),
               if connected[from] && !ready[from] && Of(from) in hasData then [(from, request[from])] else [], m);
    }
  }

  lemma NoneServed(connected: seq<bool>, ready: seq<bool>, hasData: set<Socket>, request: seq<Request>,
                   before: seq<Event>)
    requires |connected| == |ready| == |request|
    ensures
      var n := |connected|;
      && Expecting(connected, ready, n) == {} && ReadyAfter(connected, ready, hasData, request, n) == ready
      && before == before + AllHandled(Read(connected, ready, hasData, request, n))
  {
  }

  lemma ReadNext(connected: seq<bool>, ready: seq<bool>, hasData: set<Socket>, request: seq<Request>, c: nat)
    requires c < |connected| == |ready| == |request|
    ensures
      var read := Read(connected, ready, hasData, request, c + 1);
      AllHandled(Read(connected, ready, hasData, request, c))
      == if connected[c] && !ready[c] && Of(c) in hasData then AllHandled(read) + Handled((c, request[c]))
         else AllHandled(read)
  {
    var read := Read(connected, ready, hasData, request, c + 1);
    HandledNext(read, (c, request[c]));
    assert read + [] == read;
  }

  /** Sockets that are not looked at make no difference. */
  lemma {:induction false} ReadSame(connected: seq<bool>, ready: seq<bool>, some: set<Socket>, all: set<Socket>,
                                    request: seq<Request>, from: nat)
    requires |connected| == |ready| == |request|
    requires forall c: nat :: c < |connected| && connected[c] && !ready[c] ==> (Of(c) in some <==> Of(c) in all)
    ensures Read(connected, ready, some, request, from) == Read(connected, ready, all, request, from)
    decreases |connected| - from
  {
    if from < |connected| {
      ReadSame(connected, ready, some, all, request, from + 1);
    }
  }

  /** The flags after one more round. */
  lemma FlagsNext(was: seq<bool>, asked: seq<bool>, rounds: seq<Arrivals>, k: nat)
    requires |was| == |asked| && k < |rounds| && Fits(rounds[k], |was|)
    ensures
      var a, connected, ready := rounds[k], Connected(was, rounds, k), Ready(was, asked, rounds, k);
      && Connected(was, rounds, k + 1)
         == (if Accepting in a.hasData && a.joining < |was| then connected[a.joining := true] else connected)
      && Ready(was, asked, rounds, k + 1) == ReadyAfter(connected, ready, a.hasData, a.request, 0)
  {
  }

  /** Nobody forgets having asked. */
  lemma AskedLater(was: seq<bool>, asked: seq<bool>, rounds: seq<Arrivals>, k: nat, c: nat)
    requires c < |was| == |asked| && k <= |rounds| && AskedBy(was, asked, rounds, k, c)
    ensures AskedBy(was, asked, rounds, |rounds|, c)
  {
  }

  /** Somebody has not asked for the check before the k-th round. */
  ghost predicate Missing(was: seq<bool>, asked: seq<bool>, rounds: seq<Arrivals>, k: nat)
    requires |was| == |asked| && k <= |rounds|
  {
    exists c: nat :: c < |was| && !AskedBy(was, asked, rounds, k, c)
  }

  // ---- the log, piece by piece ----

  lemma ReadStep(before: seq<Event>, connected: seq<bool>, ready: seq<bool>, hasData: set<Socket>,
                 request: seq<Request>, c: nat)
    requires c < |connected| == |ready| == |request|
    ensures
      var sofar := before + AllHandled(Read(connected, ready, hasData, request, c + 1));
      before + AllHandled(Read(connected, ready, hasData, request, c))
      == if connected[c] && !ready[c] && Of(c) in hasData then sofar + Handled((c, request[c])) else sofar
  {
    ReadNext(connected, ready, hasData, request, c);
    Regroup(before, AllHandled(Read(connected, ready, hasData, request, c + 1)), Handled((c, request[c])));
  }

  /** All that looking at one more socket changes. */
  lemma ServedOne(before: seq<Event>, connected: seq<bool>, was: seq<bool>, ready: seq<bool>, hasData: set<Socket>,
                  request: seq<Request>, c: nat)
    requires c < |connected| == |was| == |request| && ready == ReadyAfter(connected, was, hasData, request, c + 1)
    ensures was[c] == ready[c]
    ensures
      var has := connected[c] && !ready[c] && Of(c) in hasData;
      var next := if has && request[c] == Check then ready[c := true] else ready;
      var log := before + AllHandled(Read(connected, was, hasData, request, c + 1));
      && next == ReadyAfter(connected, was, hasData, request, c)
      && Expecting(connected, next, c)
         == (if connected[c] && !next[c] then Expecting(connected, ready, c + 1) + {Of(c)}
             else Expecting(connected, ready, c + 1))
      && before + AllHandled(Read(connected, was, hasData, request, c))
         == (if has then log + Handled((c, request[c])) else log)
  {
    ReadyNext(connected, was, hasData, request, c);
    ReadStep(before, connected, was, hasData, request, c);
    var next := ReadyAfter(connected, was, hasData, request, c);
    ExpectingNext(connected, ready, next, c);
  }

  lemma JoinStep(before: seq<Event>, read: seq<(nat, Request)>, joins: bool, c: nat)
    ensures before + AllHandled(read + if joins then [(c, Join)] else [])
         == if joins then before + AllHandled(read) + Handled((c, Join)) else before + AllHandled(read)
  {
    HandledNext(read, (c, Join));
    Regroup(before, AllHandled(read), Handled((c, Join)));
    assert read + [] == read;
  }

  lemma RoundStep(before: seq<Event>, was: seq<bool>, asked: seq<bool>, rounds: seq<Arrivals>, k: nat)
    requires |was| == |asked| && k < |rounds| && AllFit(rounds, |was|)
    ensures
      var connected, ready := Connected(was, rounds, k), Ready(was, asked, rounds, k);
      before + AllHandled(ReadBy(was, asked, rounds, k))
      + AllHandled(Read(connected, ready, rounds[k].hasData, rounds[k].request, 0) + Newcomer(connected, rounds[k]))
      == before + AllHandled(ReadBy(was, asked, rounds, k + 1))
  {
    var connected, ready := Connected(was, rounds, k), Ready(was, asked, rounds, k);
    var now := Read(connected, ready, rounds[k].hasData, rounds[k].request, 0) + Newcomer(connected, rounds[k]);
    HandledJoined(ReadBy(was, asked, rounds, k), now);
    Regroup(before, AllHandled(ReadBy(was, asked, rounds, k)), AllHandled(now));
  }

  /** What a round makes of the flags and the log when it looks at all sockets that matter. */
  lemma RoundMeans(before: seq<Event>, was: seq<bool>, asked: seq<bool>, rounds: seq<Arrivals>, k: nat,
                   hasData: set<Socket>)
    requires |was| == |asked| && k < |rounds| && AllFit(rounds, |was|)
    requires Fits(rounds[k], |was|)
    requires Selected(Connected(was, rounds, k), Ready(was, asked, rounds, k), rounds[k], hasData)
    ensures
      var a, connected, ready := rounds[k], Connected(was, rounds, k), Ready(was, asked, rounds, k);
      var read := Read(connected, ready, hasData, a.request, 0)
                  + if Accepting in hasData then [(a.joining, Join)] else [];
      && Connected(was, rounds, k + 1) == (if Accepting in hasData then connected[a.joining := true] else connected)
      && Ready(was, asked, rounds, k + 1) == ReadyAfter(connected, ready, hasData, a.request, 0)
      && before + AllHandled(ReadBy(was, asked, rounds, k)) + AllHandled(read)
         == before + AllHandled(ReadBy(was, asked, rounds, k + 1))
  {
    var a, connected, ready := rounds[k], Connected(was, rounds, k), Ready(was, asked, rounds, k);
    FlagsNext(was, asked, rounds, k);
    ReadSame(connected, ready, hasData, a.hasData, a.request, 0);
    ReadySame(connected, ready, hasData, a);
    RoundStep(before, was, asked, rounds, k);
  }

  /** The sockets looked at in a round are those with data that matter: of the components that have
      connected and not asked yet, and the accepting one when a component connects. */
  ghost predicate Selected(connected: seq<bool>, ready: seq<bool>, a: Arrivals, hasData: set<Socket>)
    requires |connected| == |ready|
  {
    && (forall c: nat :: c < |connected| && connected[c] && !ready[c] ==> (Of(c) in hasData <==> Of(c) in a.hasData))
    && (if Accepting in hasData then a.joining < |connected| && !connected[a.joining] && Accepting in a.hasData
        else Accepting !in a.hasData || a.joining >= |connected| || connected[a.joining])
  }

  lemma ReadySame(connected: seq<bool>, ready: seq<bool>, hasData: set<Socket>, a: Arrivals)
    requires |connected| == |ready| == |a.request| && Selected(connected, ready, a, hasData)
    ensures ReadyAfter(connected, ready, hasData, a.request, 0) == ReadyAfter(connected, ready, a.hasData, a.request, 0)
  {
  }

  // ---- what relaying reads ----

  /** The messages of components that have not asked to close before. */
  function Kept(traffic: seq<(nat, Request)>): seq<(nat, Request)> {
    if traffic == [] then []
    else
      var init, last := traffic[..|traffic| - 1], traffic[|traffic| - 1];
      Kept(init) + if (last.0, Close) in init then [] else [last]
  }

  lemma KeptNext(traffic: seq<(nat, Request)>, k: nat)
    requires k < |traffic|
    ensures Kept(traffic[..k + 1])
         == Kept(traffic[..k]) + if (traffic[k].0, Close) in traffic[..k] then [] else [traffic[k]]
  {
    assert traffic[..k + 1][..k] == traffic[..k];
  }

  /** Once everybody has asked to close, nothing more is read. */
  lemma {:induction false} KeptAll(traffic: seq<(nat, Request)>, k: nat, n: nat)
    requires k <= |traffic| && forall m :: m in traffic ==> m.0 < n
    requires forall c: nat :: c < n ==> (c, Close) in traffic[..k]
    ensures Kept(traffic) == Kept(traffic[..k])
  {
    if k < |traffic| {
      var init, last := traffic[..|traffic| - 1], traffic[|traffic| - 1];
      assert init[..k] == traffic[..k] && last in traffic;
      KeptAll(init, k, n);
      assert (last.0, Close) in init[..k];
    } else {
      assert traffic[..k] == traffic;
    }
  }

  /** Who asks to close, in order. */
  function Closers(ms: seq<(nat, Request)>): seq<nat> {
    if ms == [] then []
    else Closers(ms[..|ms| - 1]) + if ms[|ms| - 1].1 == Close then [ms[|ms| - 1].0] else []
  }

  lemma ClosersNext(ms: seq<(nat, Request)>, m: (nat, Request))
    ensures Closers(ms + [m]) == Closers(ms) + if m.1 == Close then [m.0] else []
  {
    assert (ms + [m])[..|ms|] == ms;
  }

  lemma InJoined<T>(ms: seq<T>, ns: seq<T>, x: T)
    ensures x in ms + ns <==> x in ms || x in ns
  {
  }

  lemma {:induction false} CloserAsked(traffic: seq<(nat, Request)>, c: nat)
    ensures c in Closers(Kept(traffic)) <==> (c, Close) in traffic
  {
    if traffic != [] {
      var init, last := traffic[..|traffic| - 1], traffic[|traffic| - 1];
      CloserAsked(init, c);
      assert traffic == init + [last];
      InJoined(init, [last], (c, Close));
      if (last.0, Close) in init {
        assert Kept(traffic) == Kept(init) + [] == Kept(init);
      } else {
        assert Kept(traffic) == Kept(init) + [last];
        ClosersNext(Kept(init), last);
        InJoined(Closers(Kept(init)), if last.1 == Close then [last.0] else [], c);
      }
    }
  }

  /** What is kept of the traffic, in order: each message is the next one kept unless its sender
      has asked to close before. */
  lemma {:induction false} KeptAt(traffic: seq<(nat, Request)>, k: nat)
    requires k < |traffic|
    ensures
      var kept, before := Kept(traffic), Kept(traffic[..k]);
      && |before| <= |kept| && kept[..|before|] == before && |Kept(traffic[..k + 1])| <= |kept|
      && if (traffic[k].0, Close) in traffic[..k] then Kept(traffic[..k + 1]) == before
         else |before| < |kept| && kept[|before|] == traffic[k] && Kept(traffic[..k + 1]) == before + [traffic[k]]
    decreases |traffic|
  {
    KeptNext(traffic, k);
    if k + 1 < |traffic| {
      var init := traffic[..|traffic| - 1];
      assert init[..k] == traffic[..k] && init[..k + 1] == traffic[..k + 1];
      KeptAt(init, k);
    } else {
      assert traffic[..k + 1] == traffic;
    }
  }

  /** Components are let go in the order in which they have asked: the k-th permission is for the
      component whose first close request is the k-th of these. */
  lemma {:induction false} PermitsInOrder(traffic: seq<(nat, Request)>, k: nat) returns (j: nat)
    requires k < |Closers(Kept(traffic))|
    ensures j < |traffic| && traffic[j].1 == Close && traffic[j] !in traffic[..j]
    ensures k == |Closers(Kept(traffic[..j]))|
    ensures Permits(Closers(Kept(traffic)))[k] == Permit(traffic[j].0)
  {
    var init, last := traffic[..|traffic| - 1], traffic[|traffic| - 1];
    if (last.0, Close) in init {
      assert Kept(traffic) == Kept(init);
    } else {
      ClosersNext(Kept(init), last);
    }
    if k < |Closers(Kept(init))| {
      j := PermitsInOrder(init, k);
      assert init[..j] == traffic[..j];
    } else {
      j := |init|;
    }
  }

  // ---- the whole session ----

  /** The answers to the check requests of the components from `from` on, the last one first. */
  function CheckAnswers(n: nat, from: nat): seq<Event>
    decreases n - from
  {
    if from >= n then [] else CheckAnswers(n, from + 1) + [Put(from, Checked)]
  }

  /** The last component is answered first. */
  lemma {:induction false} AnswersInOrder(n: nat, from: nat, k: nat)
    requires from + k < n
    ensures |CheckAnswers(n, from)| == n - from && CheckAnswers(n, from)[k] == Put(n - 1 - k, Checked)
    decreases n - from
  {
    if from + k + 1 < n {
      AnswersInOrder(n, from + 1, k);
    } else if from + 1 < n {
      AnswersInOrder(n, from + 1, 0);
    }
  }

  function Permits(closed: seq<nat>): seq<Event> {
    seq(|closed|, k requires 0 <= k < |closed| => Permit(closed[k]))
  }

  lemma PermitsNext(closed: seq<nat>, k: nat)
    requires k < |closed|
    ensures Permits(closed[..k + 1]) == Permits(closed[..k]) + [Permit(closed[k])]
  {
  }

  /** What is done once everybody has registered: the answers, and if the model was accepted what the
      components send, and permission for all in the order of their requests once all have asked. */
  function AfterStart(n: nat, startupOK: bool, traffic: seq<(nat, Request)>): seq<Event> {
    if !startupOK then CheckAnswers(n, 0)
    else
      CheckAnswers(n, 0) + AllHandled(Kept(traffic))
      + if forall c: nat :: c < n ==> (c, Close) in traffic then Permits(Closers(Kept(traffic))) else []
  }

  lemma PiecesAfterStart(before: seq<Event>, n: nat, startupOK: bool, complete: bool, traffic: seq<(nat, Request)>)
    requires complete <==> startupOK && forall c: nat :: c < n ==> (c, Close) in traffic
    ensures before + CheckAnswers(n, 0) + (if startupOK then AllHandled(Kept(traffic)) else [])
        + (if complete then Permits(Closers(Kept(traffic))) else [])
      == before + AfterStart(n, startupOK, traffic)
  {
    var relayed := if startupOK then AllHandled(Kept(traffic)) else [];
    var permitted := if complete then Permits(Closers(Kept(traffic))) else [];
    assert CheckAnswers(n, 0) + relayed + permitted == AfterStart(n, startupOK, traffic);
    Regroup(before, CheckAnswers(n, 0), relayed);
    Regroup(before, CheckAnswers(n, 0) + relayed, permitted);
  }

  /** What the reader thread has done in the end, from what has been read during start-up, whether
      the model was accepted, and what the components sent afterwards. */
  function Story(n: nat, started: bool, read: seq<(nat, Request)>, startupOK: bool, traffic: seq<(nat, Request)>):
      seq<Event>
  {
    AllHandled(read) + if started then AfterStart(n, startupOK, traffic) else []
  }
}
