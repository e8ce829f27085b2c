// What one pass of the consumer's loop does with what it reads.
module PassAnswers {
  import opened EventStream
  import opened EventConsumer

  // The entry is acknowledged if it comes to its turn in this pass.
  predicate Accepted(s: State, handlers: set<string>, f: Fortune, id: nat)
    requires id < |s.log|
  {
    var eventType := s.log[id].eventType;
    eventType.Some? && (eventType.value !in handlers || id !in f.raises) && id !in f.acksLost
  }

  // The attempt is this process's at the entry, and acknowledged it if it was to.
  ghost predicate Took(s: State, a: Attempt, process: nat, handlers: set<string>, f: Fortune, id: nat) {
    a.process == process && a.id == id && id < |s.log| && (a.acked <==> Accepted(s, handlers, f, id))
  }

  // After its read and the first i entries of its batch.
  ghost predicate Handling(
    s0: State, s: State, process: nat, handlers: set<string>, f: Fortune, ids: seq<nat>, i: nat)
    requires i <= |ids|
  {
    && s.log == s0.log && s.trimmed == s0.trimmed
    && Batch(s, process) == ids[i..]
    && |s.attempts| == |s0.attempts| + i && s0.attempts <= s.attempts
    && (forall k | 0 <= k < i :: Took(s0, s.attempts[|s0.attempts| + k], process, handlers, f, ids[k]))
  }

  lemma HandlingGoesOn(
    s0: State, s: State, process: nat, handlers: set<string>, f: Fortune, ids: seq<nat>, i: nat)
    requires i < |ids| && Handling(s0, s, process, handlers, f, ids, i) && ids[i] < |s.log|
    ensures Handling(s0, Step(s, HandleEvent(process, handlers, f, ids[i])), process, handlers, f, ids, i + 1)
  {
    var s' := Step(s, HandleEvent(process, handlers, f, ids[i]));
    assert ids[i..][0] == ids[i] && ids[i..][1..] == ids[i + 1..];
    var n := |s.attempts|;
    assert s'.attempts == s.attempts + [s'.attempts[n]];
    assert Took(s0, s'.attempts[n], process, handlers, f, ids[i]);
    forall k | 0 <= k < i + 1 ensures Took(s0, s'.attempts[|s0.attempts| + k], process, handlers, f, ids[k]) {
      if k < i {
        assert Took(s0, s.attempts[|s0.attempts| + k], process, handlers, f, ids[k]);
      }
    }
  }

  lemma {:induction false} PassHandles(
    s0: State, process: nat, batchSize: nat, handlers: set<string>, f: Fortune, ids: seq<nat>, i: nat)
    requires Reachable(s0) && Batch(s0, process) == [] && ids == BatchRead(s0, process, batchSize) && i <= |ids|
    ensures Handling(s0, Run(s0, PassSoFar(process, batchSize, handlers, f, ids, i)), process, handlers, f, ids, i)
  {
    if i == 0 {
      PassStarts(s0, process, batchSize, handlers, f);
    } else {
      PassHandles(s0, process, batchSize, handlers, f, ids, i - 1);
      var s := Run(s0, PassSoFar(process, batchSize, handlers, f, ids, i - 1));
      PassGoesOn(s0, s, process, batchSize, handlers, f, ids, i - 1);
      HandlingGoesOn(s0, s, process, handlers, f, ids, i - 1);
    }
  }

  // How many entries come to their turn.
  function Turns(f: Fortune, n: nat): nat {
    if f.cancelAfter.Some? && f.cancelAfter.value < n then f.cancelAfter.value else n
  }

  // The pass has handed the first n entries to their handlers, in order; each was acknowledged
  // exactly if its handler returned or it has none, and the acknowledgement arrived. If it was
  // cancelled inside a handler, one more was attempted.
  ghost predicate Attempted(
    s: State, s': State, process: nat, handlers: set<string>, f: Fortune, ids: seq<nat>, n: nat)
    requires n <= |ids|
  {
    var cut := n < |ids| && f.midHandler;
    && s.attempts <= s'.attempts
    && |s'.attempts| == |s.attempts| + n + (if cut then 1 else 0)
    && (forall k | 0 <= k < n :: Took(s, s'.attempts[|s.attempts| + k], process, handlers, f, ids[k]))
    && (cut ==> s'.attempts[|s.attempts| + n] == Attempt(process, ids[n], Result.Cancelled, false))
  }

  lemma PassEnds(s0: State, s: State, process: nat, handlers: set<string>, f: Fortune, ids: seq<nat>, n: nat)
    requires n == Handled(f, ids) && Handling(s0, s, process, handlers, f, ids, n)
    ensures var s' := Step(s, LastEvent(process, f, ids));
            Batch(s', process) == [] && Attempted(s0, s', process, handlers, f, ids, n)
  {
    var s' := Step(s, LastEvent(process, f, ids));
    assert s.attempts <= s'.attempts;
    if n < |ids| {
      assert ids[n..][0] == ids[n];
    }
    forall k | 0 <= k < n ensures Took(s0, s'.attempts[|s0.attempts| + k], process, handlers, f, ids[k]) {
      assert Took(s0, s.attempts[|s0.attempts| + k], process, handlers, f, ids[k]);
    }
  }

  // An answered pass takes up to batchSize retained entries after the cursor and attempts every one of
  // them until it is cancelled. It keeps nothing for later.
  lemma AnsweredPass(s: State, process: nat, batchSize: nat, handlers: set<string>, f: Fortune)
    requires Reachable(s) && Batch(s, process) == [] && s.grouped && f.replies
    ensures var s' := Run(s, PollEvents(s, process, batchSize, handlers, f));
            var ids := BatchRead(s, process, batchSize);
            Batch(s', process) == [] && Attempted(s, s', process, handlers, f, ids, Turns(f, |ids|))
  {
    var ids := BatchRead(s, process, batchSize);
    var n := Handled(f, ids);
    var es := PassSoFar(process, batchSize, handlers, f, ids, n);
    PassHandles(s, process, batchSize, handlers, f, ids, n);
    RunAppend(s, es, LastEvent(process, f, ids));
    PassEnds(s, Run(s, es), process, handlers, f, ids, n);
  }

  // A pass whose read is not answered attempts nothing. What the server delivered all the same stays
  // pending and is never handled.
  lemma UnansweredPass(s: State, process: nat, batchSize: nat, handlers: set<string>, f: Fortune)
    requires Batch(s, process) == [] && !(s.grouped && f.replies)
    ensures var s' := Run(s, PollEvents(s, process, batchSize, handlers, f));
            && s'.attempts == s.attempts && s'.batches == s.batches && s'.acked == s.acked && s'.log == s.log
            && (!f.executed || !s.grouped ==> s' == s)
            && (f.executed ==> s' == Step(s, Read(process, batchSize, true)))
  {
    if f.executed {
      RunAppend(s, [], Read(process, batchSize, true));
      assert [] + [Read(process, batchSize, true)] == Unread(process, batchSize, f);
    }
  }

  // An uncut pass ends with a reclaim, which takes nothing up.
  lemma PassEndsWithReclaim(s: State, process: nat, batchSize: nat, handlers: set<string>, f: Fortune)
    requires s.grouped && f.replies
    requires f.cancelAfter.Some? ==> |BatchRead(s, process, batchSize)| <= f.cancelAfter.value
    ensures var es := PollEvents(s, process, batchSize, handlers, f);
            es != [] && es[|es| - 1] == Reclaim(f.purged)
  {
  }

  // The loop goes on after a pass exactly if no cancellation hit it; an error does not end it.
  lemma GoesOnIff(s: State, process: nat, batchSize: nat, f: Fortune)
    ensures Completes(s, process, batchSize, f) <==>
            if s.grouped && f.replies
            then (f.cancelAfter.None? || |BatchRead(s, process, batchSize)| <= f.cancelAfter.value)
                 && !f.cancelledInReclaim
            else !f.cancelledUnread
  {
  }

  // The loop makes the group, if that succeeds, and then its passes one after the other.
  lemma LoopIsPasses(s: State, process: nat, batchSize: nat, handlers: set<string>, created: bool,
                     passes: seq<Fortune>, f: Fortune)
    ensures Run(s, LoopEvents(s, process, batchSize, handlers, created, [])) == s.(grouped := s.grouped || created)
    ensures var here := Run(s, LoopEvents(s, process, batchSize, handlers, created, passes));
            Run(s, LoopEvents(s, process, batchSize, handlers, created, passes + [f]))
              == Run(here, PollEvents(here, process, batchSize, handlers, f))
  {
    RunAppend(s, [], Event.EnsureGroup);
    assert [] + [Event.EnsureGroup] == Creation(true);
    var before := LoopEvents(s, process, batchSize, handlers, created, passes);
    assert (passes + [f])[..|passes|] == passes;
    RunConcat(s, before, PollEvents(Run(s, before), process, batchSize, handlers, f));
  }
}
