// The publisher and the consumer process, as they change the shared stream step by step.
module EventConsumer {
  import opened Prelude
  import opened EventStream
  import opened DeliveryGuarantees

  class Broker {
    var state: State

    constructor ()
      ensures state == EMPTY
    {
      state := EMPTY;
    }

    method Publish(message: Message, slack: nat) returns (id: nat)
      modifies this
      ensures id == |old(state).log| && state == Step(old(state), Event.Publish(message, slack))
    {
      id := |state.log|;
      state := state.(log := state.log + [message]);
      if |state.log| - state.trimmed > MAXLEN + slack {
        state := state.(trimmed := |state.log| - MAXLEN - slack);
      }
    }
  }

  // What the outside world decides during one pass: whether the read's reply arrives and, if not,
  // whether the server executed it and whether the process is cancelled (in the read, or in the pause
  // that follows an error); which handlers raise and which acknowledgements do not arrive; after how
  // many messages the process is cancelled, and whether inside the next handler; what the server
  // forgets on a reclaim (nothing, if the command fails), and whether the process is cancelled there.
  datatype Fortune = Fortune(
    replies: bool, executed: bool, cancelledUnread: bool,
    raises: set<nat>, acksLost: set<nat>, cancelAfter: Option<nat>, midHandler: bool,
    purged: set<nat>, cancelledInReclaim: bool)

  function HandleEvent(process: nat, handlers: set<string>, f: Fortune, id: nat): Event {
    Handle(process, handlers, id in f.raises, id !in f.acksLost)
  }

  function HandleAll(process: nat, handlers: set<string>, f: Fortune, ids: seq<nat>): seq<Event> {
    seq(|ids|, i requires 0 <= i < |ids| => HandleEvent(process, handlers, f, ids[i]))
  }

  // The read gets an answer. Without the group it is an error.
  predicate Replies(s: State, f: Fortune) {
    s.grouped && f.replies
  }

  function BatchRead(s: State, process: nat, batchSize: nat): seq<nat> {
    Batch(ReadStep(s, process, batchSize, false), process)
  }

  // A read without an answer, as events.
  function Unread(process: nat, batchSize: nat, f: Fortune): seq<Event> {
    if f.executed then [Read(process, batchSize, true)] else []
  }

  // One pass of the loop after its read and the first i messages of its batch, as events.
  function PassSoFar(process: nat, batchSize: nat, handlers: set<string>, f: Fortune, ids: seq<nat>, i: nat): seq<Event>
    requires i <= |ids|
  {
    [Read(process, batchSize, false)] + HandleAll(process, handlers, f, ids[..i])
  }

  // How many messages of the batch are handled before a cancellation cuts the pass short.
  function Handled(f: Fortune, ids: seq<nat>): nat {
    if f.cancelAfter.Some? && f.cancelAfter.value < |ids| then f.cancelAfter.value else |ids|
  }

  function LastEvent(process: nat, f: Fortune, ids: seq<nat>): Event {
    if Handled(f, ids) < |ids| then Cancel(process, f.midHandler) else Reclaim(f.purged)
  }

  // The whole pass: a read and, if it is answered, the messages of its batch in order and a reclaim
  // or the cancellation.
  function PollEvents(s: State, process: nat, batchSize: nat, handlers: set<string>, f: Fortune): seq<Event> {
    var ids := BatchRead(s, process, batchSize);
    if !Replies(s, f) then Unread(process, batchSize, f)
    else PassSoFar(process, batchSize, handlers, f, ids, Handled(f, ids)) + [LastEvent(process, f, ids)]
  }

  // The creation of the group, which changes nothing if it fails.
  function Creation(created: bool): seq<Event> {
    if created then [Event.EnsureGroup] else []
  }

  // The loop: the creation of the group, then one pass after another.
  function LoopEvents(
    s: State, process: nat, batchSize: nat, handlers: set<string>, created: bool, passes: seq<Fortune>): seq<Event>
  {
    if passes == [] then Creation(created)
    else
      var n := |passes| - 1;
      var before := LoopEvents(s, process, batchSize, handlers, created, passes[..n]);
      before + PollEvents(Run(s, before), process, batchSize, handlers, passes[n])
  }

  // No cancellation in the pass: an unanswered read does not end the loop by itself.
  predicate Completes(s: State, process: nat, batchSize: nat, f: Fortune) {
    var ids := BatchRead(s, process, batchSize);
    if !Replies(s, f) then !f.cancelledUnread else Handled(f, ids) == |ids| && !f.cancelledInReclaim
  }

  // The last pass made was cancelled.
  predicate EndsCancelled(
    s: State, process: nat, batchSize: nat, handlers: set<string>, created: bool, made: seq<Fortune>)
  {
    && made != []
    && var n := |made| - 1;
       var here := Run(s, LoopEvents(s, process, batchSize, handlers, created, made[..n]));
       !Completes(here, process, batchSize, made[n])
  }

  lemma RunAppend(s: State, es: seq<Event>, e: Event)
    ensures Run(s, es + [e]) == Step(Run(s, es), e)
  {
    assert (es + [e])[..|es|] == es;
  }

  lemma {:induction false} RunConcat(s: State, es: seq<Event>, fs: seq<Event>)
    ensures Run(s, es + fs) == Run(Run(s, es), fs)
  {
    if fs == [] {
      assert es + fs == es;
    } else {
      var n := |fs| - 1;
      var all, e := es + fs[..n], fs[n];
      RunConcat(s, es, fs[..n]);
      assert es + fs == all + [e] && fs == fs[..n] + [e];
      RunAppend(s, all, e);
      RunAppend(Run(s, es), fs[..n], e);
    }
  }

  ghost predicate Reachable(s: State) {
    exists es :: s == Run(EMPTY, es)
  }

  lemma QueuedIsInLog(s0: State, es: seq<Event>, process: nat)
    requires Reachable(s0) && Batch(Run(s0, es), process) != []
    ensures Batch(Run(s0, es), process)[0] < |Run(s0, es).log|
  {
    var fs :| s0 == Run(EMPTY, fs);
    RunKeepsInv(EMPTY, fs);
    RunKeepsInv(s0, es);
    HeadOfBatch(Run(s0, es), process);
  }

  lemma PassGoesOn(
    s0: State, s: State, process: nat, batchSize: nat, handlers: set<string>, f: Fortune, ids: seq<nat>, i: nat)
    requires Reachable(s0) && i < |ids| && Batch(s, process) == ids[i..]
    requires s == Run(s0, PassSoFar(process, batchSize, handlers, f, ids, i))
    ensures ids[i] < |s.log|
    ensures var s' := Step(s, HandleEvent(process, handlers, f, ids[i]));
            && Batch(s', process) == ids[i + 1..]
            && s' == Run(s0, PassSoFar(process, batchSize, handlers, f, ids, i + 1))
  {
    var es, e := PassSoFar(process, batchSize, handlers, f, ids, i), HandleEvent(process, handlers, f, ids[i]);
    QueuedIsInLog(s0, es, process);
    RunAppend(s0, es, e);
    assert PassSoFar(process, batchSize, handlers, f, ids, i + 1) == es + [e];
  }

  lemma LoopGoesOn(
    s: State, process: nat, batchSize: nat, handlers: set<string>, created: bool, passes: seq<Fortune>, i: nat)
    requires Reachable(s) && i < |passes|
    ensures var here := Run(s, LoopEvents(s, process, batchSize, handlers, created, passes[..i]));
            && Reachable(here)
            && Run(s, LoopEvents(s, process, batchSize, handlers, created, passes[..i + 1]))
               == Run(here, PollEvents(here, process, batchSize, handlers, passes[i]))
  {
    var before := LoopEvents(s, process, batchSize, handlers, created, passes[..i]);
    var es :| s == Run(EMPTY, es);
    RunConcat(EMPTY, es, before);
    assert Run(s, before) == Run(EMPTY, es + before);
    assert passes[..i + 1][..i] == passes[..i];
    RunConcat(s, before, PollEvents(Run(s, before), process, batchSize, handlers, passes[i]));
  }

  lemma PassStarts(s0: State, process: nat, batchSize: nat, handlers: set<string>, f: Fortune)
    ensures var s := ReadStep(s0, process, batchSize, false);
            s == Run(s0, PassSoFar(process, batchSize, handlers, f, Batch(s, process), 0))
    ensures Run(s0, [Read(process, batchSize, true)]) == ReadStep(s0, process, batchSize, true)
  {
    var read, lost := Read(process, batchSize, false), Read(process, batchSize, true);
    var ids := Batch(Step(s0, read), process);
    RunAppend(s0, [], read);
    RunAppend(s0, [], lost);
    assert [] + [read] == PassSoFar(process, batchSize, handlers, f, ids, 0);
    assert [] + [lost] == [lost];
  }

  class EventConsumer {
    const broker: Broker
    const process: nat
    const batchSize: nat
    var handlers: set<string>

    constructor (broker: Broker, process: nat, batchSize: nat)
      ensures this.broker == broker && this.process == process && this.batchSize == batchSize && handlers == {}
    {
      this.broker, this.process, this.batchSize, handlers := broker, process, batchSize, {};
    }

    method Register(eventType: string)
      modifies this
      ensures handlers == old(handlers) + {eventType}
    {
      handlers := handlers + {eventType};
    }

    // An existing group and any other failure are only logged.
    method EnsureGroup(created: bool)
      modifies broker
      ensures broker.state == Run(old(broker.state), Creation(created))
    {
      RunAppend(broker.state, [], Event.EnsureGroup);
      assert [] + [Event.EnsureGroup] == Creation(true);
      if created && !broker.state.grouped {
        broker.state := broker.state.(grouped := true);
      }
    }

    method HandleMessage(f: Fortune)
      requires Batch(broker.state, process) != [] && Batch(broker.state, process)[0] < |broker.state.log|
      modifies broker
      ensures var id := Batch(old(broker.state), process)[0];
              broker.state == Step(old(broker.state), HandleEvent(process, handlers, f, id))
    {
      var s := broker.state;
      var id := s.batches[process][0];
      s := s.(batches := s.batches[process := s.batches[process][1..]]);
      var m := s.log[id];
      var result := Returned;
      if m.eventType.None? {
        result := Malformed;
      } else if m.eventType.value in handlers {
        if id in f.raises {
          result := Raised;
        }
      } else {
        result := NoHandler;
      }
      var ok := false;
      if result != Malformed && result != Raised && id !in f.acksLost {
        s := s.(pending := s.pending - {id}, acked := s.acked + {id});
        ok := true;
      }
      broker.state := s.(attempts := s.attempts + [Attempt(process, id, result, ok)]);
    }

    method ReadBatch(f: Fortune) returns (reply: Option<seq<nat>>)
      requires Batch(broker.state, process) == []
      modifies broker
      ensures reply.Some? <==> Replies(old(broker.state), f)
      ensures reply.Some? ==>
                && reply.value == BatchRead(old(broker.state), process, batchSize) == Batch(broker.state, process)
                && broker.state == Run(old(broker.state), PassSoFar(process, batchSize, handlers, f, reply.value, 0))
      ensures reply.None? ==>
                && Batch(broker.state, process) == []
                && broker.state == Run(old(broker.state), Unread(process, batchSize, f))
    {
      PassStarts(broker.state, process, batchSize, handlers, f);
      if broker.state.grouped && f.replies {
        broker.state := ReadStep(broker.state, process, batchSize, false);
        return Some(Batch(broker.state, process));
      }
      if f.executed {
        broker.state := ReadStep(broker.state, process, batchSize, true);
      }
      return None;
    }

    // The messages of the batch in order, until a cancellation.
    method HandleBatch(ghost s0: State, f: Fortune, ids: seq<nat>)
      requires Reachable(s0) && Batch(broker.state, process) == ids
      requires broker.state == Run(s0, PassSoFar(process, batchSize, handlers, f, ids, 0))
      modifies broker
      ensures Batch(broker.state, process) == ids[Handled(f, ids)..]
      ensures broker.state == Run(s0, PassSoFar(process, batchSize, handlers, f, ids, Handled(f, ids)))
    {
      for i := 0 to Handled(f, ids)
        invariant Batch(broker.state, process) == ids[i..]
        invariant broker.state == Run(s0, PassSoFar(process, batchSize, handlers, f, ids, i))
      {
        PassGoesOn(s0, broker.state, process, batchSize, handlers, f, ids, i);
        HandleMessage(f);
      }
    }

    // The end of the pass: the reclaim, whose reply is dropped, or the cancellation.
    method FinishPass(ghost s0: State, ghost es: seq<Event>, f: Fortune, ids: seq<nat>)
      requires Batch(broker.state, process) == ids[Handled(f, ids)..] && broker.state == Run(s0, es)
      modifies broker
      ensures Batch(broker.state, process) == []
      ensures broker.state == Run(s0, es + [LastEvent(process, f, ids)])
    {
      RunAppend(s0, es, LastEvent(process, f, ids));
      if Handled(f, ids) < |ids| {
        broker.state := CancelStep(broker.state, process, f.midHandler);
      } else {
        broker.state := ReclaimStep(broker.state, f.purged);
      }
    }

    // One pass of the loop. `running` says whether the loop goes on.
    method PollOnce(f: Fortune) returns (running: bool)
      requires Reachable(broker.state) && Batch(broker.state, process) == []
      modifies broker
      ensures Batch(broker.state, process) == []
      ensures broker.state == Run(old(broker.state), PollEvents(old(broker.state), process, batchSize, handlers, f))
      ensures running <==> Completes(old(broker.state), process, batchSize, f)
    {
      ghost var s0 := broker.state;
      var reply := ReadBatch(f);
      if reply.None? {
        return !f.cancelledUnread;
      }
      var ids := reply.value;
      HandleBatch(s0, f, ids);
      FinishPass(s0, PassSoFar(process, batchSize, handlers, f, ids, Handled(f, ids)), f, ids);
      return Handled(f, ids) == |ids| && !f.cancelledInReclaim;
    }

    // The whole loop, for as many passes as it is left running. A cancellation ends it early, or
    // keeps it from starting if it comes while the group is created.
    method Start(created: bool, cancelled: bool, passes: seq<Fortune>) returns (done: nat)
      requires Reachable(broker.state) && Batch(broker.state, process) == []
      modifies broker
      ensures done <= |passes|
      ensures broker.state == Run(old(broker.state), LoopEvents(old(broker.state), process, batchSize, handlers,
                                                                created, passes[..done]))
      ensures if cancelled then done == 0
              else done < |passes| ==>
                     EndsCancelled(old(broker.state), process, batchSize, handlers, created, passes[..done])
    {
      ghost var s0 := broker.state;
      EnsureGroup(created);
      done := 0;
      if cancelled {
        return;
      }
      var running := true;
      while running && done < |passes|
        invariant done <= |passes| && Batch(broker.state, process) == []
        invariant broker.state == Run(s0, LoopEvents(s0, process, batchSize, handlers, created, passes[..done]))
        invariant !running ==> EndsCancelled(s0, process, batchSize, handlers, created, passes[..done])
        decreases |passes| - done
      {
        LoopGoesOn(s0, process, batchSize, handlers, created, passes, done);
        running := PollOnce(passes[done]);
        assert passes[..done + 1][..done] == passes[..done];
        done := done + 1;
      }
    }
  }
}
