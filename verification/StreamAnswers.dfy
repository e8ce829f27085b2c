// What each command and each handled message does to the stream, in terms of the message and the
// handlers alone.
module StreamAnswers {
  import opened EventStream
  import opened DeliveryGuarantees

  // Publishing appends, and keeps the last 10,000 entries and at most `slack` more; nothing published
  // is delivered, acknowledged or forgotten by it.
  lemma Published(s: State, message: Message, slack: nat)
    requires s.trimmed <= |s.log|
    ensures var s' := Step(s, Publish(message, slack));
            && s'.log == s.log + [message]
            && s' == s.(log := s'.log, trimmed := s'.trimmed)
            && s.trimmed <= s'.trimmed
            && (|s'.log| - s'.trimmed <= 10_000 + slack)
            && (s'.trimmed > s.trimmed ==> |s'.log| - s'.trimmed == 10_000 + slack)
  {
  }

  // A new group starts before the first entry, and an existing one stays where it is.
  lemma GroupStarts(s: State)
    ensures Step(s, EnsureGroup) == s.(grouped := true) && EMPTY.cursor == 0 && EMPTY.trimmed == 0
  {
  }

  // A read delivers, in log order and without gaps, the first `count` retained entries after the
  // cursor, or all there are; they become pending, and wait for the reader unless the reply is lost.
  lemma ReadDelivers(s: State, process: nat, count: nat, replyLost: bool)
    requires Positions(s) && s.grouped && Batch(s, process) == []
    ensures var s' := Step(s, Read(process, count, replyLost));
            var from := if s.cursor < s.trimmed then s.trimmed else s.cursor;
            var n := if |s.log| - from < count then |s.log| - from else count;
            && (n == 0 ==> s' == s)
            && (n > 0 ==>
                  && s'.cursor == from + n
                  && (forall id: nat :: id in s'.pending <==> id in s.pending || from <= id < from + n)
                  && (if replyLost then s'.batches == s.batches
                      else
                        && process in s'.batches && |s'.batches[process]| == n
                        && s'.batches == s.batches[process := s'.batches[process]]
                        && (forall k | 0 <= k < n :: s'.batches[process][k] == from + k))
                  && s' == s.(cursor := s'.cursor, pending := s'.pending, batches := s'.batches, dropped := s'.dropped)
                  && forall id: nat :: id in s'.dropped <==> id in s.dropped || (replyLost && from <= id < from + n))
  {
    var ids := Deliverable(s, count);
    forall id: nat ensures id in ids <==> 0 < |ids| && ids[0] <= id < ids[0] + |ids| {
      if 0 < |ids| && ids[0] <= id < ids[0] + |ids| {
        assert ids[id - ids[0]] == id;
      }
    }
  }

  lemma ReadWithoutGroup(s: State, process: nat, count: nat, replyLost: bool)
    requires !s.grouped
    ensures Step(s, Read(process, count, replyLost)) == s
  {
  }

  // A message at the head of a batch is acknowledged, and leaves the pending list, exactly if it can
  // be decoded, its handler returns or it has none, and the acknowledgement arrives. It is attempted
  // either way, and the rest of the batch waits.
  lemma HandledMessage(s: State, process: nat, handlers: set<string>, raises: bool, ackApplied: bool)
    requires Inv(s) && Batch(s, process) != []
    ensures var s' := Step(s, Handle(process, handlers, raises, ackApplied));
            var id := Batch(s, process)[0];
            && id < |s.log|
            && var eventType := s.log[id].eventType;
               var accepted := ackApplied && eventType.Some? && (eventType.value !in handlers || !raises);
            && s'.acked == (if accepted then s.acked + {id} else s.acked)
            && s'.pending == (if accepted then s.pending - {id} else s.pending)
            && (id in s'.acked <==> accepted)
            && s'.batches == s.batches[process := Batch(s, process)[1..]]
            && |s'.attempts| == |s.attempts| + 1 && s.attempts <= s'.attempts
            && s'.attempts[|s.attempts|].id == id && s'.attempts[|s.attempts|].process == process
            && s' == s.(acked := s'.acked, pending := s'.pending, batches := s'.batches, attempts := s'.attempts)
  {
    HeadOfBatch(s, process);
  }

  // How the attempt is recorded.
  lemma AttemptTellsHow(s: State, process: nat, handlers: set<string>, raises: bool, ackApplied: bool)
    requires Inv(s) && Batch(s, process) != []
    ensures Batch(s, process)[0] < |s.log|
    ensures var s' := Step(s, Handle(process, handlers, raises, ackApplied));
            var eventType := s.log[Batch(s, process)[0]].eventType;
            var a := s'.attempts[|s.attempts|];
            && (a.result == Malformed <==> eventType.None?)
            && (a.result == NoHandler <==> eventType.Some? && eventType.value !in handlers)
            && (a.result == Raised <==> eventType.Some? && eventType.value in handlers && raises)
            && (a.result == Returned <==> eventType.Some? && eventType.value in handlers && !raises)
            && (a.acked <==> ackApplied && (a.result == NoHandler || a.result == Returned))
  {
    HeadOfBatch(s, process);
  }

  // A cancellation empties the batch: inside a handler the head counts as attempted without an
  // acknowledgement, and whatever was not attempted is dropped. All of it stays pending.
  lemma Cancelled(s: State, process: nat, midHandler: bool)
    requires Batch(s, process) != []
    ensures var s', batch := Step(s, Cancel(process, midHandler)), Batch(s, process);
            && Batch(s', process) == []
            && s' == s.(batches := s.batches[process := []], attempts := s'.attempts, dropped := s'.dropped)
            && s'.attempts == s.attempts
                 + (if midHandler then [Attempt(process, batch[0], Result.Cancelled, false)] else [])
            && forall id: nat :: id in s'.dropped <==>
                 id in s.dropped || id in (if midHandler then batch[1..] else batch)
  {
  }

  // A reclaim hands nothing out: it can only forget pending entries that are gone from the stream.
  lemma Reclaimed(s: State, purged: set<nat>)
    ensures var s' := Step(s, Reclaim(purged));
            && s' == s.(pending := s'.pending)
            && forall id :: id in s'.pending <==> id in s.pending && (s.trimmed <= id || id !in purged)
  {
  }
}
