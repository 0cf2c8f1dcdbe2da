/** How the sending thread fares when `Terminate` gives its last signal, and what
    `Terminate` throws away. */
module MessageQueueEnding {
  import opened MessageQueue

  /** No message is put in the queue any more. */
  ghost predicate NoPush(run: seq<Action>) {
    forall k :: 0 <= k < |run| ==> !run[k].PutPush?
  }

  /** The sending thread is, or is about to be, asleep and no signal is to come. */
  predicate Asleep(s: State) {
    s.stage == Signalled && (s.consumer == Testing || s.consumer == Waiting)
  }

  lemma {:induction false} StaysAsleep(s: State, run: seq<Action>)
    requires Asleep(s) && Legal(s, run) && NoPush(run)
    ensures Asleep(Exec(s, run))
    decreases |run|
  {
    if run != [] {
      assert !run[0].PutPush?;
      StaysAsleep(Apply(s, run[0]), run[1..]);
    }
  }

  /** A thread that is awake after the flag is set can send what is left and end. */
  lemma {:induction false} AwakeEnds(s: State) returns (run: seq<Action>)
    requires Terminated(s) && s.consumer != Testing && s.consumer != Waiting
    ensures Legal(s, run) && NoPush(run) && Exec(s, run).consumer == Ended
    decreases |s.queue|, if s.consumer == Ended then 0 else if s.consumer.Sending? then 2 else 1
  {
    if s.consumer == Ended {
      run := [];
    } else {
      var a := if s.consumer == Asking then Ask else if s.consumer == Woken then Resume else Finish;
      var rest := AwakeEnds(Apply(s, a));
      ExecStep(s, a, rest);
      run := [a] + rest;
    }
  }

  /** The last signal of `Terminate` leaves the sending thread unable to end by what is
      already queued exactly when the thread is between its test and its wait. */
  lemma LastSignal(s: State)
    requires Enabled(s, Signal)
    ensures s.consumer == Testing <==>
      forall more :: Legal(Apply(s, Signal), more) && NoPush(more) ==> Exec(Apply(s, Signal), more).consumer != Ended
  {
    var t := Apply(s, Signal);
    if s.consumer == Testing {
      forall more | Legal(t, more) && NoPush(more)
        ensures Exec(t, more).consumer != Ended
      {
        StaysAsleep(t, more);
      }
    } else {
      var more := AwakeEnds(t);
    }
  }

  // ---- late messages ----

  lemma {:induction false} StaysAsleepForGood(s: State, run: seq<Action>)
    requires Asleep(s) && s.admitted == multiset{} && Legal(s, run)
    ensures Asleep(Exec(s, run))
    decreases |run|
  {
    if run != [] {
      StaysAsleepForGood(Apply(s, run[0]), run[1..]);
    }
  }

  /** A slot that was admitted before the flag was set may still be pushed and wakes the
      thread. */
  lemma LatePushWakes(s: State, x: nat, m: int) returns (run: seq<Action>)
    requires s.stage == Signalled && s.consumer == Testing && s.queue == [] && x in s.admitted
    ensures Legal(s, run) && Exec(s, run).consumer == Ended
  {
    var s1 := Apply(s, Wait);
    var s2 := Apply(s1, PutPush(x, m));
    run := AwakeEnds(s2);
    ExecStep(s1, PutPush(x, m), run);
    run := [PutPush(x, m)] + run;
    ExecStep(s, Wait, run);
    run := [Wait] + run;
  }

  /** Nothing at all can end the sending thread after the last signal exactly when it is
      then between its test and its wait and no slot admitted earlier is still to come. */
  lemma AsleepForGood(run: seq<Action>)
    requires Legal(Init(), run) && Enabled(Exec(Init(), run), Signal)
    ensures
      var s := Exec(Init(), run);
      s.consumer == Testing && s.admitted == multiset{} <==>
        forall more :: Legal(Apply(s, Signal), more) ==> Exec(Apply(s, Signal), more).consumer != Ended
  {
    InvReached(run);
    var s := Exec(Init(), run);
    var t := Apply(s, Signal);
    if s.consumer == Testing && s.admitted == multiset{} {
      forall more | Legal(t, more)
        ensures Exec(t, more).consumer != Ended
      {
        StaysAsleepForGood(t, more);
      }
    } else if s.consumer == Testing {
      var x :| x in s.admitted;
      var more := LatePushWakes(t, x, 0);
    } else {
      var more := AwakeEnds(t);
    }
  }

  // ---- what is thrown away ----

  lemma {:induction false} DiscardedStays(s: State, run: seq<Action>)
    requires Cleared(s) && Legal(s, run)
    ensures Exec(s, run).discarded == s.discarded
    decreases |run|
  {
    if run != [] {
      DiscardedStays(Apply(s, run[0]), run[1..]);
    }
  }

  /** `Terminate` throws nothing away exactly when the queue is empty as it clears it,
      that is, when everything put in the queue has been taken by then. */
  lemma DiscardsNothing(run: seq<Action>, more: seq<Action>)
    requires Legal(Init(), run) && Enabled(Exec(Init(), run), ClearQueue)
    requires Legal(Apply(Exec(Init(), run), ClearQueue), more)
    ensures
      var s := Exec(Init(), run);
      && (Exec(Apply(s, ClearQueue), more).discarded == [] <==> s.queue == [])
      && (s.queue == [] <==> s.put == s.taken)
  {
    InvReached(run);
    var s := Exec(Init(), run);
    DiscardedStays(Apply(s, ClearQueue), more);
    assert |Messages(s.queue)| == |s.queue|;
    assert |s.put| == |s.taken| + |s.queue|;
    if s.queue == [] {
      assert s.put == s.taken + [] + [] + [];
    }
  }

  /** The reader thread has queued `n` times the message `m`, and nothing has been sent. */
  ghost predicate Unsent(s: State, n: nat, m: int) {
    && s.stage == Running && s.consumer == Asking && s.free == [] && |s.queue| == n && s.taken == s.late == []
    && (forall k :: 0 <= k < n ==> s.queue[k].message == m)
  }

  lemma {:induction false} QueueAnswers(s: State, n: nat, m: int, total: nat) returns (run: seq<Action>)
    requires Unsent(s, n, m) && n <= total
    ensures Legal(s, run) && Unsent(Exec(s, run), total, m)
    decreases total - n
  {
    if n == total {
      run := [];
    } else {
      var x := s.created;
      var s1 := Apply(s, GetReadSlot);
      var s2 := Apply(s1, PutTest(x));
      run := QueueAnswers(Apply(s2, PutPush(x, m)), n + 1, m, total);
      ExecStep(s2, PutPush(x, m), run);
      run := [PutPush(x, m)] + run;
      ExecStep(s1, PutTest(x), run);
      run := [PutTest(x)] + run;
      ExecStep(s, GetReadSlot, run);
      run := [GetReadSlot] + run;
    }
  }

  /** After a failed start-up the reader thread queues one negative answer for each of `n`
      components and terminates the queue at once: if the sending thread has not run by
      then, no component gets its answer. */
  lemma AnswersDiscarded(n: nat) returns (run: seq<Action>)
    ensures Legal(Init(), run)
    ensures
      var s := Exec(Init(), run);
      s.discarded == seq(n, _ => 0) && s.put == s.discarded && s.taken == s.late == []
  {
    var queued := QueueAnswers(Init(), 0, 0, n);
    var s := Exec(Init(), queued);
    TerminateAfter(queued, n);
    run := queued + [ClearFree, ClearQueue];
    ExecAppend(Init(), queued, [ClearFree, ClearQueue]);
    InvReached(run);
    assert Messages(s.queue) == seq(n, _ => 0);
  }

  lemma TerminateAfter(queued: seq<Action>, n: nat)
    requires Legal(Init(), queued) && Unsent(Exec(Init(), queued), n, 0)
    ensures
      var s := Exec(Init(), queued);
      && Legal(s, [ClearFree, ClearQueue])
      && Exec(s, [ClearFree, ClearQueue]).discarded == Messages(s.queue)
      && Exec(s, [ClearFree, ClearQueue]).queue == []
      && Exec(s, [ClearFree, ClearQueue]).taken == Exec(s, [ClearFree, ClearQueue]).late == []
  {
    var s := Exec(Init(), queued);
    ExecStep(Apply(s, ClearFree), ClearQueue, []);
    ExecStep(s, ClearFree, [ClearQueue]);
    assert [ClearFree] + [ClearQueue] == [ClearFree, ClearQueue];
  }

  lemma {:induction false} ExecAppend(s: State, a: seq<Action>, b: seq<Action>)
    requires Legal(s, a) && Legal(Exec(s, a), b)
    ensures Legal(s, a + b) && Exec(s, a + b) == Exec(Exec(s, a), b)
    decreases |a|
  {
    if a == [] {
      assert a + b == b;
    } else {
      assert (a + b)[0] == a[0] && (a + b)[1..] == a[1..] + b;
      ExecAppend(Apply(s, a[0]), a[1..], b);
    }
  }
}
