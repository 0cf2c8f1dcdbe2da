/** What becomes of the messages and the slots of the manager's message queue over whole runs. */
module MessageQueueSlots {
  import opened MessageQueue

  // ---- messages ----

  /** The messages that threads have put in the queue in a run, in order. */
  function Pushed(run: seq<Action>): seq<int> {
    if run == [] then []
    else (if run[0].PutPush? then [run[0].message] else []) + Pushed(run[1..])
  }

  lemma {:induction false} PutsArePushed(s: State, run: seq<Action>)
    requires Legal(s, run)
    ensures Exec(s, run).put == s.put + Pushed(run)
    decreases |run|
  {
    if run != [] {
      PutsArePushed(Apply(s, run[0]), run[1..]);
      PutOne(s, run[0]);
      Regroup(s.put, if run[0].PutPush? then [run[0].message] else [], Pushed(run[1..]));
    }
  }

  lemma PutOne(s: State, a: Action)
    requires Enabled(s, a)
    ensures Apply(s, a).put == s.put + if a.PutPush? then [a.message] else []
  {
  }

  lemma Regroup(a: seq<int>, b: seq<int>, c: seq<int>)
    ensures a + b + c == a + (b + c)
  {
  }

  /** Under any interleaving the messages sent, discarded by `Terminate`, sent after that and
      still queued are together exactly those that were put in the queue, in that order. */
  lemma NothingGarbled(run: seq<Action>)
    requires Legal(Init(), run)
    ensures
      var s := Exec(Init(), run);
      s.taken + s.discarded + s.late + Messages(s.queue) == Pushed(run)
  {
    PutsArePushed(Init(), run);
    InvReached(run);
  }

  /** The sending thread ends only when there is nothing left to send. */
  lemma EndsEmpty(s: State, a: Action)
    requires Enabled(s, a) && s.consumer != Ended && Apply(s, a).consumer == Ended
    ensures s.queue == []
  {
  }

  // ---- slots ----

  ghost predicate NoWaste(s: State) {
    && (s.stage == Running ==> s.deleted == multiset{})
    && (!Terminated(s) ==> s.leaked == multiset{})
  }

  lemma {:induction false} NoWasteRun(s: State, run: seq<Action>)
    requires NoWaste(s) && Legal(s, run)
    ensures NoWaste(Exec(s, run))
    decreases |run|
  {
    if run != [] {
      NoWasteRun(Apply(s, run[0]), run[1..]);
    }
  }

  /** As long as nobody terminates the queue, every slot ever created is free, filled, queued or
      being sent: none is deleted or lost. */
  lemma SlotsStay(run: seq<Action>, x: nat)
    requires Legal(Init(), run) && Exec(Init(), run).stage == Running && x < Exec(Init(), run).created
    ensures
      var s := Exec(Init(), run);
      x in s.free || x in Slots(s.queue) || x in s.held || x in s.admitted || s.consumer == Sending(x)
  {
    NoWasteRun(Init(), run);
    InvReached(run);
    var s := Exec(Init(), run);
    assert Places(s, x) == 1;
  }

  /** A slot is created only when none is free. */
  lemma CreatesWhenNeeded(s: State)
    ensures Apply(s, GetReadSlot).created == s.created <==> s.free != []
  {
  }

  /** After the flag is set no slot is admitted any more. */
  lemma NothingAdmittedLater(s: State, a: Action, x: nat)
    requires Enabled(s, a) && Terminated(s)
    ensures Apply(s, a).admitted[x] <= s.admitted[x]
  {
  }

  /** The slot given back last is used first. */
  lemma UsedAgain(s: State, x: nat)
    requires Enabled(s, Release(x))
    ensures Apply(Apply(s, Release(x)), GetReadSlot) == s
  {
    assert (s.free + [x])[..|s.free|] == s.free;
  }

  lemma SentUsedAgain(s: State)
    requires Enabled(s, Finish)
    ensures Apply(Apply(s, Finish), GetReadSlot).held == s.held + multiset{s.consumer.slot}
  {
  }
}
