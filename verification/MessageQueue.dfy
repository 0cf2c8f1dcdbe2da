/** The manager's message queue: several threads fill slots and queue them, one thread
    sends them. Each action is one critical section, or one access outside of any. */
module MessageQueue {

  /** A queued slot and the message written into it. */
  datatype Entry = Entry(slot: nat, message: int)

  /** The sending thread: before asking for a slot; having found the queue empty and the
      flag not set, with the lock still held; waiting for a signal; woken but not yet
      running; busy with a slot; ended. */
  datatype Consumer = Asking | Testing | Waiting | Woken | Sending(slot: nat) | Ended

  /** How far `Terminate` has come. */
  datatype Stage = Running | FreeCleared | QueueCleared | Flagged | Signalled

  datatype State = State(
    free: seq<nat>,
    queue: seq<Entry>,
    held: multiset<nat>,
    admitted: multiset<nat>,
    consumer: Consumer,
    stage: Stage,
    created: nat,
    deleted: multiset<nat>,
    leaked: multiset<nat>,
    // histories: messages put in the queue, taken before it was cleared, cleared, taken
    // after that; and whether the last signal came between test and wait
    put: seq<int>,
    taken: seq<int>,
    discarded: seq<int>,
    late: seq<int>,
    missed: bool)

  datatype Action =
    | GetReadSlot
    | PutTest(slot: nat)
    | PutPush(slot: nat, message: int)
    | Release(slot: nat)
    | Ask
    | Wait
    | Resume
    | Finish
    | ClearFree
    | ClearQueue
    | SetFlag
    | Signal

  function Init(): State {
    State([], [], multiset{}, multiset{}, Asking, Running, 0, multiset{}, multiset{}, [], [], [], [], false)
  }

  predicate Terminated(s: State) {
    s.stage == Flagged || s.stage == Signalled
  }

  /** The queue has been emptied by `Terminate`. */
  predicate Cleared(s: State) {
    s.stage == QueueCleared || Terminated(s)
  }

  /** The lock of the queue is free. */
  predicate Unlocked(s: State) {
    s.consumer != Testing
  }

  predicate Enabled(s: State, a: Action) {
    match a
    case GetReadSlot => true
    case PutTest(x) => x in s.held
    case PutPush(x, _) => x in s.admitted && Unlocked(s)
    case Release(x) => x in s.held
    case Ask => s.consumer == Asking
    case Wait => s.consumer == Testing
    case Resume => s.consumer == Woken
    case Finish => s.consumer.Sending?
    case ClearFree => s.stage == Running
    case ClearQueue => s.stage == FreeCleared && Unlocked(s)
    case SetFlag => s.stage == QueueCleared
    case Signal => s.stage == Flagged
  }

  function Notified(c: Consumer): Consumer {
    if c == Waiting then Woken else c
  }

  /** The end of `GetWriteSlot`: the oldest message, or nothing and the thread ends. */
  function Take(s: State): State {
    if s.queue == [] then s.(consumer := Ended)
    else
      var e := s.queue[0];
      var t := s.(consumer := Sending(e.slot), queue := s.queue[1..]);
      if Cleared(s) then t.(late := s.late + [e.message]) else t.(taken := s.taken + [e.message])
  }

  function Messages(q: seq<Entry>): seq<int> {
    seq(|q|, k requires 0 <= k < |q| => q[k].message)
  }

  function Slots(q: seq<Entry>): seq<nat> {
    seq(|q|, k requires 0 <= k < |q| => q[k].slot)
  }

  function Apply(s: State, a: Action): State
    requires Enabled(s, a)
  {
    match a
    case GetReadSlot =>
      if s.free != [] then
        s.(free := s.free[..|s.free| - 1], held := s.held + multiset{s.free[|s.free| - 1]})
      else
        s.(held := s.held + multiset{s.created}, created := s.created + 1)
    case PutTest(x) =>
      if Terminated(s) then s.(held := s.held - multiset{x}, leaked := s.leaked + multiset{x})
      else s.(held := s.held - multiset{x}, admitted := s.admitted + multiset{x})
    case PutPush(x, m) =>
      var t := s.(admitted := s.admitted - multiset{x}, queue := s.queue + [Entry(x, m)], put := s.put + [m]);
      if |t.queue| == 1 then t.(consumer := Notified(s.consumer)) else t
    case Release(x) => s.(held := s.held - multiset{x}, free := s.free + [x])
    case Ask => if s.queue == [] && !Terminated(s) then s.(consumer := Testing) else Take(s)
    case Wait => s.(consumer := Waiting)
    case Resume => Take(s)
    case Finish => s.(consumer := Asking, free := s.free + [s.consumer.slot])
    case ClearFree => s.(stage := FreeCleared, free := [], deleted := s.deleted + multiset(s.free))
    case ClearQueue =>
      s.(stage := QueueCleared, queue := [], deleted := s.deleted + multiset(Slots(s.queue)),
         discarded := Messages(s.queue))
    case SetFlag => s.(stage := Flagged)
    case Signal => s.(stage := Signalled, consumer := Notified(s.consumer), missed := s.consumer == Testing)
  }

  predicate Legal(s: State, run: seq<Action>)
    decreases |run|
  {
    run == [] || (Enabled(s, run[0]) && Legal(Apply(s, run[0]), run[1..]))
  }

  function Exec(s: State, run: seq<Action>): State
    requires Legal(s, run)
    decreases |run|
  {
    if run == [] then s else Exec(Apply(s, run[0]), run[1..])
  }

  // ---- who owns a slot ----

  /** In how many places slot `x` is. */
  function Places(s: State, x: nat): nat {
    multiset(s.free)[x] + multiset(Slots(s.queue))[x] + s.held[x] + s.admitted[x]
    + (if s.consumer == Sending(x) then 1 else 0) + s.deleted[x] + s.leaked[x]
  }

  /** Each slot ever created is in exactly one place. */
  ghost predicate SingleOwner(s: State) {
    forall x: nat :: Places(s, x) == if x < s.created then 1 else 0
  }

  /** Every message put in the queue has been taken, discarded by `Terminate`, or is still
      there, and all that in the order of putting. */
  ghost predicate InOrder(s: State) {
    && s.put == s.taken + s.discarded + s.late + Messages(s.queue)
    && (!Cleared(s) ==> s.discarded == [] && s.late == [])
  }

  /** A thread that sleeps or is about to has nothing to send, and is only woken or ended
      for nothing once `Terminate` has cleared the queue. */
  ghost predicate NeverStranded(s: State) {
    && (s.consumer == Testing || s.consumer == Waiting ==> s.queue == [])
    && (s.consumer == Woken && s.queue == [] ==> Cleared(s))
    && (s.consumer == Ended ==> Cleared(s))
    && (s.consumer == Waiting && s.stage == Signalled ==> s.missed)
    && (s.consumer == Testing && s.stage == Signalled ==> s.missed)
    && (s.missed ==> s.stage == Signalled)
  }

  ghost predicate Inv(s: State) {
    SingleOwner(s) && InOrder(s) && NeverStranded(s)
  }

  lemma SlotsAppend(q: seq<Entry>, e: Entry)
    ensures Slots(q + [e]) == Slots(q) + [e.slot] && Messages(q + [e]) == Messages(q) + [e.message]
  {
  }

  lemma SlotsHead(q: seq<Entry>)
    requires q != []
    ensures Slots(q) == [q[0].slot] + Slots(q[1..]) && Messages(q) == [q[0].message] + Messages(q[1..])
  {
  }

  lemma PopKeeps(s: seq<nat>, x: nat)
    requires s != []
    ensures multiset(s)[x] == multiset(s[..|s| - 1])[x] + if s[|s| - 1] == x then 1 else 0
  {
    assert s == s[..|s| - 1] + [s[|s| - 1]];
  }

  lemma PushKeeps(s: seq<nat>, y: nat, x: nat)
    ensures multiset(s + [y])[x] == multiset(s)[x] + if y == x then 1 else 0
  {
  }

  lemma AheadKeeps(s: seq<nat>, y: nat, x: nat)
    ensures multiset([y] + s)[x] == multiset(s)[x] + if y == x then 1 else 0
  {
  }

  lemma OwnedTake(s: State, x: nat)
    requires !s.consumer.Sending?
    ensures Places(Take(s), x) == Places(s, x)
  {
    if s.queue != [] {
      SlotsHead(s.queue);
      AheadKeeps(Slots(s.queue[1..]), s.queue[0].slot, x);
    }
  }

  lemma OwnedGet(s: State, x: nat)
    ensures Places(Apply(s, GetReadSlot), x) == Places(s, x) + if s.free == [] && x == s.created then 1 else 0
  {
    if s.free != [] {
      PopKeeps(s.free, x);
    }
  }

  lemma OwnedPut(s: State, y: nat, m: int, x: nat)
    requires Enabled(s, PutPush(y, m))
    ensures Places(Apply(s, PutPush(y, m)), x) == Places(s, x)
  {
    SlotsAppend(s.queue, Entry(y, m));
    PushKeeps(Slots(s.queue), y, x);
  }

  lemma MoveOne(m: multiset<nat>, n: multiset<nat>, y: nat, x: nat)
    requires y in m
    ensures (m - multiset{y})[x] == m[x] - if y == x then 1 else 0
    ensures (n + multiset{y})[x] == n[x] + if y == x then 1 else 0
  {
  }

  lemma OwnedTest(s: State, y: nat, x: nat)
    requires Enabled(s, PutTest(y))
    ensures Places(Apply(s, PutTest(y)), x) == Places(s, x)
  {
    MoveOne(s.held, s.admitted, y, x);
    MoveOne(s.held, s.leaked, y, x);
  }

  lemma OwnedRelease(s: State, y: nat, x: nat)
    requires Enabled(s, Release(y))
    ensures Places(Apply(s, Release(y)), x) == Places(s, x)
  {
    MoveOne(s.held, s.held, y, x);
    PushKeeps(s.free, y, x);
  }

  lemma OwnedFinish(s: State, x: nat)
    requires Enabled(s, Finish)
    ensures Places(Apply(s, Finish), x) == Places(s, x)
  {
    PushKeeps(s.free, s.consumer.slot, x);
  }

  lemma OwnedClear(s: State, a: Action, x: nat)
    requires Enabled(s, a) && (a.ClearFree? || a.ClearQueue?)
    ensures Places(Apply(s, a), x) == Places(s, x)
  {
    if a.ClearQueue? {
      assert Slots([]) == [];
    }
  }

  /** One action moves slots between places; only asking for a slot may create one. */
  lemma OwnedStep(s: State, a: Action, x: nat)
    requires Enabled(s, a)
    ensures Places(Apply(s, a), x) == Places(s, x) + if a.GetReadSlot? && s.free == [] && x == s.created then 1 else 0
  {
    if a.GetReadSlot? {
      OwnedGet(s, x);
    } else if a.PutPush? {
      OwnedPut(s, a.slot, a.message, x);
    } else if a.Ask? || a.Resume? {
      OwnedTake(s, x);
    } else if a.PutTest? {
      OwnedTest(s, a.slot, x);
    } else if a.Release? {
      OwnedRelease(s, a.slot, x);
    } else if a.Finish? {
      OwnedFinish(s, x);
    } else if a.ClearFree? || a.ClearQueue? {
      OwnedClear(s, a, x);
    }
  }

  lemma TakeInOrder(s: State)
    requires InOrder(s)
    ensures InOrder(Take(s))
  {
    if s.queue != [] {
      SlotsHead(s.queue);
      var m, rest := s.queue[0].message, Messages(s.queue[1..]);
      assert s.late + ([m] + rest) == (s.late + [m]) + rest;
      if !Cleared(s) {
        assert s.taken + [] + [] + ([m] + rest) == (s.taken + [m]) + [] + [] + rest;
      } else {
        assert s.taken + s.discarded + s.late + ([m] + rest) == s.taken + s.discarded + (s.late + [m]) + rest;
      }
    }
  }

  lemma InOrderStep(s: State, a: Action)
    requires InOrder(s) && Enabled(s, a)
    ensures InOrder(Apply(s, a))
  {
    match a
    case PutPush(x, m) => SlotsAppend(s.queue, Entry(x, m));
    case Ask => TakeInOrder(s);
    case Resume => TakeInOrder(s);
    case ClearQueue => assert s.taken + [] + [] + Messages(s.queue) == s.taken + Messages(s.queue) + [] + [];
    case _ =>
  }

  lemma NeverStrandedStep(s: State, a: Action)
    requires NeverStranded(s) && Enabled(s, a)
    ensures NeverStranded(Apply(s, a))
  {
  }

  lemma InvStep(s: State, a: Action)
    requires Inv(s) && Enabled(s, a)
    ensures Inv(Apply(s, a))
  {
    var t := Apply(s, a);
    forall x: nat ensures Places(t, x) == if x < t.created then 1 else 0 {
      OwnedStep(s, a, x);
    }
    InOrderStep(s, a);
    NeverStrandedStep(s, a);
  }

  lemma {:induction false} InvRun(s: State, run: seq<Action>)
    requires Inv(s) && Legal(s, run)
    ensures Inv(Exec(s, run))
    decreases |run|
  {
    if run != [] {
      InvStep(s, run[0]);
      InvRun(Apply(s, run[0]), run[1..]);
    }
  }

  lemma InvReached(run: seq<Action>)
    requires Legal(Init(), run)
    ensures Inv(Exec(Init(), run))
  {
    assert Slots([]) == [] && Messages([]) == [];
    InvRun(Init(), run);
  }

  /** Under any interleaving every slot is in exactly one place, messages are sent in the
      order they were put with none lost before `Terminate` clears the queue, a thread
      never sleeps beside a message, and it is told that there are none only afterwards. */
  lemma QueueDiscipline(run: seq<Action>)
    requires Legal(Init(), run)
    ensures
      var s := Exec(Init(), run);
      && SingleOwner(s)
      && s.put == s.taken + s.discarded + s.late + Messages(s.queue)
      && (!Cleared(s) ==> s.put == s.taken + Messages(s.queue))
      && (s.consumer == Waiting ==> s.queue == [])
      && (s.consumer == Ended ==> Cleared(s))
  {
    InvReached(run);
    var s := Exec(Init(), run);
    assert s.taken + [] + [] + Messages(s.queue) == s.taken + Messages(s.queue);
  }

  // ---- ending ----

  /** The sending thread's own next action, if it has one. */
  predicate Moves(s: State) {
    Enabled(s, Ask) || Enabled(s, Wait) || Enabled(s, Resume) || Enabled(s, Finish)
  }

  /** When there is something to send, or `Terminate` is over, the sending thread has
      ended, can move, or sleeps after a last signal that was given while it was between
      its test and its wait. */
  lemma SenderProgress(run: seq<Action>)
    requires Legal(Init(), run)
    ensures
      var s := Exec(Init(), run);
      s.queue != [] || s.stage == Signalled ==> s.consumer == Ended || Moves(s) || (s.consumer == Waiting && s.missed)
  {
    InvReached(run);
    var s := Exec(Init(), run);
    if s.queue != [] || s.stage == Signalled {
      ProgressOf(s);
    }
  }

  lemma ProgressOf(s: State)
    requires NeverStranded(s) && (s.queue != [] || s.stage == Signalled)
    ensures s.consumer == Ended || Moves(s) || (s.consumer == Waiting && s.missed)
  {
  }

  /** A state without any slots. */
  function Bare(consumer: Consumer, stage: Stage, missed: bool): State {
    Init().(consumer := consumer, stage := stage, missed := missed)
  }

  /** A run that loses the signal: the flag is set, and the signal given, after the sending
      thread has looked at the flag and before it sleeps. */
  lemma SignalCanBeLost() returns (run: seq<Action>)
    ensures Legal(Init(), run)
    ensures var s := Exec(Init(), run); s.stage == Signalled && s.consumer == Waiting && !Moves(s)
  {
    run := LosingMiddle();
    Clearing();
    ExecStep(Bare(Asking, FreeCleared, false), ClearQueue, run);
    run := [ClearQueue] + run;
    ExecStep(Init(), ClearFree, run);
    run := [ClearFree] + run;
  }

  lemma LosingMiddle() returns (run: seq<Action>)
    ensures Legal(Bare(Asking, QueueCleared, false), run)
    ensures Exec(Bare(Asking, QueueCleared, false), run) == Bare(Waiting, Signalled, true)
  {
    run := LosingEnd();
    ExecStep(Bare(Asking, QueueCleared, false), Ask, run);
    run := [Ask] + run;
  }

  lemma Clearing()
    ensures Apply(Init(), ClearFree) == Bare(Asking, FreeCleared, false)
    ensures Apply(Bare(Asking, FreeCleared, false), ClearQueue) == Bare(Asking, QueueCleared, false)
  {
    assert Slots([]) == [] && Messages([]) == [];
  }

  lemma LosingEnd() returns (run: seq<Action>)
    ensures Legal(Bare(Testing, QueueCleared, false), run)
    ensures Exec(Bare(Testing, QueueCleared, false), run) == Bare(Waiting, Signalled, true)
  {
    run := [];
    ExecStep(Bare(Testing, Signalled, true), Wait, run);
    run := [Wait] + run;
    ExecStep(Bare(Testing, Flagged, false), Signal, run);
    run := [Signal] + run;
    ExecStep(Bare(Testing, QueueCleared, false), SetFlag, run);
    run := [SetFlag] + run;
  }

  lemma ExecStep(s: State, a: Action, run: seq<Action>)
    requires Enabled(s, a) && Legal(Apply(s, a), run)
    ensures Legal(s, [a] + run) && Exec(s, [a] + run) == Exec(Apply(s, a), run)
  {
    assert ([a] + run)[1..] == run;
  }

  // ---- the critical sections ----

  /** The queue object. Each method body is what one thread does while it holds a lock, or
      one access outside of any; the ghost state says which action that is. */
  class TLMMessageQueue {
    var freeBuffers: seq<nat>
    var sendBuffers: seq<Entry>
    var terminated: bool
    var created: nat
    ghost var state: State

    ghost predicate Valid()
      reads this
    {
      && freeBuffers == state.free && sendBuffers == state.queue
      && terminated == Terminated(state) && created == state.created
      && Inv(state)
    }

    constructor ()
      ensures Valid() && state == Init()
    {
      freeBuffers, sendBuffers, terminated, created := [], [], false, 0;
      state := Init();
    }

    method GetReadSlot() returns (ret: nat)
      requires Valid()
      modifies this
      ensures Valid() && state == Apply(old(state), Action.GetReadSlot) && ret in state.held
    {
      InvStep(state, Action.GetReadSlot);
      state := Apply(state, Action.GetReadSlot);
      if |freeBuffers| > 0 {
        ret := freeBuffers[|freeBuffers| - 1];
        freeBuffers := freeBuffers[..|freeBuffers| - 1];
      } else {
        ret := created;
        created := created + 1;
      }
    }

    /** The unlocked look at the flag in `PutWriteSlot`. */
    method TestTerminated(mess: nat) returns (give: bool)
      requires Valid() && mess in state.held
      modifies this`state
      ensures Valid() && state == Apply(old(state), PutTest(mess))
      ensures give <==> mess in state.admitted - old(state.admitted)
    {
      InvStep(state, PutTest(mess));
      state := Apply(state, PutTest(mess));
      give := !terminated;
    }

    /** The locked part of `PutWriteSlot`. */
    method PutWriteSlot(mess: nat, message: int) returns (signal: bool)
      requires Valid() && mess in state.admitted && Unlocked(state)
      modifies this`sendBuffers, this`state
      ensures Valid() && state == Apply(old(state), PutPush(mess, message))
      ensures old(state).consumer == Waiting ==> (signal <==> state.consumer == Woken)
    {
      InvStep(state, PutPush(mess, message));
      state := Apply(state, PutPush(mess, message));
      sendBuffers := sendBuffers + [Entry(mess, message)];
      signal := |sendBuffers| == 1;
    }

    /** `GetWriteSlot` up to its end, or up to the wait for a signal, before which the lock
        stays held. */
    method GetWriteSlot() returns (mustWait: bool, ret: int)
      requires Valid() && state.consumer == Asking
      modifies this`sendBuffers, this`state
      ensures Valid() && state == Apply(old(state), Ask)
      ensures mustWait <==> old(sendBuffers) == [] && !terminated
      ensures mustWait ==> state.consumer == Testing
      ensures !mustWait ==> if ret == -1 then state.consumer == Ended else ret >= 0 && state.consumer == Sending(ret)
    {
      InvStep(state, Ask);
      state := Apply(state, Ask);
      ret := -1;
      mustWait := |sendBuffers| == 0 && !terminated;
      if !mustWait {
        ret := PopOldest();
      }
    }

    /** The wait, which gives the lock back. */
    method WaitForSignal()
      requires Valid() && state.consumer == Testing
      modifies this`state
      ensures Valid() && state == Apply(old(state), Wait) && Unlocked(state)
    {
      InvStep(state, Wait);
      state := Apply(state, Wait);
    }

    /** `GetWriteSlot` after a signal: without looking again whether there is a message. */
    method ResumeGetWriteSlot() returns (ret: int)
      requires Valid() && state.consumer == Woken
      modifies this`sendBuffers, this`state
      ensures Valid() && state == Apply(old(state), Resume)
      ensures if ret == -1 then state.consumer == Ended else ret >= 0 && state.consumer == Sending(ret)
    {
      InvStep(state, Resume);
      state := Apply(state, Resume);
      ret := PopOldest();
    }

    /** The slot at the front of the queue, or -1. */
    method PopOldest() returns (ret: int)
      modifies this`sendBuffers
      ensures if old(sendBuffers) == [] then ret == -1 && sendBuffers == []
              else ret == old(sendBuffers)[0].slot && sendBuffers == old(sendBuffers)[1..]
    {
      ret := -1;
      if |sendBuffers| > 0 {
        ret := sendBuffers[0].slot;
        sendBuffers := sendBuffers[1..];
      }
    }

    method ReleaseSlot(mess: nat)
      requires Valid() && state.consumer == Sending(mess)
      modifies this`freeBuffers, this`state
      ensures Valid() && state == Apply(old(state), Finish)
    {
      InvStep(state, Finish);
      state := Apply(state, Finish);
      freeBuffers := freeBuffers + [mess];
    }

    /** The first part of `Terminate`. */
    method DeleteFree()
      requires Valid() && state.stage == Running
      modifies this`freeBuffers, this`state
      ensures Valid() && state == Apply(old(state), Action.ClearFree)
    {
      while |freeBuffers| > 0
        invariant state == old(state)
      {
        freeBuffers := freeBuffers[..|freeBuffers| - 1];
      }
      InvStep(state, Action.ClearFree);
      state := Apply(state, Action.ClearFree);
    }

    /** The second part of `Terminate`. */
    method DeleteUnsent()
      requires Valid() && state.stage == FreeCleared && Unlocked(state)
      modifies this`sendBuffers, this`state
      ensures Valid() && state == Apply(old(state), Action.ClearQueue)
    {
      while |sendBuffers| > 0
        invariant state == old(state)
      {
        sendBuffers := sendBuffers[1..];
      }
      InvStep(state, Action.ClearQueue);
      state := Apply(state, Action.ClearQueue);
    }

    /** The third part of `Terminate`, outside of any lock. */
    method SetTerminated()
      requires Valid() && state.stage == QueueCleared
      modifies this`terminated, this`state
      ensures Valid() && state == Apply(old(state), Action.SetFlag) && terminated
    {
      InvStep(state, Action.SetFlag);
      state := Apply(state, Action.SetFlag);
      terminated := true;
    }
  }
}
