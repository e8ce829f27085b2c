// What every run of publishers and consumer processes guarantees about one stream.
module DeliveryGuarantees {
  import opened Prelude
  import opened EventStream

  // ---------- Reading ----------

  lemma DeliverableMembers(s: State, count: nat)
    ensures var ids := Deliverable(s, count);
            && (forall i, j | 0 <= i < j < |ids| :: ids[i] < ids[j])
            && (forall id | id in ids :: s.cursor <= id < |s.log| && s.trimmed <= id)
            && (ids != [] ==> forall id | s.cursor <= id <= ids[|ids| - 1] :: id in ids || id < s.trimmed)
  {
    var from, ids := Max(s.cursor, s.trimmed), Deliverable(s, count);
    if ids != [] {
      forall id | from <= id <= ids[|ids| - 1] ensures id in ids {
        assert ids[id - from] == id;
      }
    }
  }

  lemma ReadKeepsInv(s: State, process: nat, count: nat, replyLost: bool)
    requires Inv(s)
    ensures Inv(ReadStep(s, process, count, replyLost))
  {
    var s', ids := ReadStep(s, process, count, replyLost), Deliverable(s, count);
    DeliverableMembers(s, count);
    if s' != s {
      assert ids[|ids| - 1] in ids;
      assert forall id | id in ids :: id <= ids[|ids| - 1];
      ReadKeepsLedger(s, s', ids);
      ReadKeepsQueues(s, s', process, ids);
      ReadKeepsOrder(s, s', process, ids);
      ReadKeepsAccounted(s, s', process, ids, s.trimmed);
    }
  }

  lemma ReadKeepsLedger(s: State, s': State, ids: seq<nat>)
    requires Ledger(s) && s.cursor <= s'.cursor
    requires forall id | id in ids :: s.cursor <= id < s'.cursor
    requires forall id | s.cursor <= id < s'.cursor :: id in ids || id < s.trimmed
    requires s'.pending == s.pending + Ids(ids) && s'.acked == s.acked && s'.trimmed == s.trimmed
    ensures Ledger(s')
  {
  }

  lemma ReadKeepsOrder(s: State, s': State, process: nat, ids: seq<nat>)
    requires Order(s) && s.cursor <= s'.cursor && s'.attempts == s.attempts
    requires forall id | id in ids :: s.cursor <= id < s'.cursor
    requires s'.batches == s.batches || s'.batches == s.batches[process := ids]
    ensures Order(s')
  {
    assert forall p: nat, id: nat | InBatch(s', p, id) :: InBatch(s, p, id) || id in ids;
  }

  lemma ReadKeepsAccounted(s: State, s': State, process: nat, ids: seq<nat>, lost: nat)
    requires Accounted(s, lost) && Batch(s, process) == []
    requires s'.attempts == s.attempts
    requires forall id | s.cursor <= id < s'.cursor :: id in ids || id < lost
    requires (s'.batches == s.batches && s'.dropped == s.dropped + Ids(ids))
          || (s'.batches == s.batches[process := ids] && s'.dropped == s.dropped)
    ensures Accounted(s', lost)
  {
    forall id | lost <= id < s'.cursor ensures Tried(s', id) || Queued(s', id) || id in s'.dropped {
      if id in ids {
        assert id in s'.dropped || InBatch(s', process, id);
      } else if Tried(s, id) {
        assert Tried(s', id);
      } else if Queued(s, id) {
        var p: nat :| InBatch(s, p, id);
        assert InBatch(s', p, id);
      }
    }
  }

  lemma ReadKeepsQueues(s: State, s': State, process: nat, ids: seq<nat>)
    requires Queues(s) && Order(s) && Batch(s, process) == []
    requires forall i, j | 0 <= i < j < |ids| :: ids[i] < ids[j]
    requires forall id | id in ids :: s.cursor <= id < s'.cursor
    requires s'.attempts == s.attempts && s.cursor <= s'.cursor
    requires (s'.batches == s.batches && s'.dropped == s.dropped + Ids(ids))
          || (s'.batches == s.batches[process := ids] && s'.dropped == s.dropped)
    ensures Queues(s')
  {
    assert forall id: nat :: Tried(s', id) <==> Tried(s, id);
    assert forall id: nat | Tried(s, id) :: id < s.cursor;
    assert forall p: nat, id: nat | InBatch(s', p, id) :: InBatch(s, p, id) || (p == process && id in ids);
    assert forall id: nat :: !InBatch(s, process, id);
  }

  // ---------- Handling and cancelling ----------

  // The first entry of a batch is no other process's, untried, and before the rest of the batch.
  lemma HeadOfBatch(s: State, process: nat)
    requires Inv(s) && Batch(s, process) != []
    ensures var batch := Batch(s, process);
            && batch[0] < s.cursor && !Tried(s, batch[0]) && batch[0] !in s.dropped && batch[0] !in s.acked
            && (forall id | id in batch[1..] :: batch[0] < id && id in batch)
            && (forall p: nat | InBatch(s, p, batch[0]) :: p == process)
            && (forall id | id in batch :: id == batch[0] || id in batch[1..])
  {
    var batch := s.batches[process];
    assert InBatch(s, process, batch[0]);
    assert batch == [batch[0]] + batch[1..];
  }

  lemma TriedAfter(s: State, s': State, a: Attempt)
    requires s'.attempts == s.attempts + [a]
    ensures forall id: nat :: Tried(s', id) <==> Tried(s, id) || id == a.id
  {
    forall id: nat ensures Tried(s', id) <==> Tried(s, id) || id == a.id {
      if Tried(s, id) {
        var i :| 0 <= i < |s.attempts| && s.attempts[i].id == id;
        assert s'.attempts[i].id == id;
      }
      assert s'.attempts[|s.attempts|] == a;
    }
  }

  // Taking the first entry off a batch, attempting it, and dropping what the new batch leaves out.
  lemma AttemptKeepsQueues(s: State, s': State, process: nat, rest: seq<nat>, a: Attempt, left: set<nat>)
    requires Inv(s) && Batch(s, process) != [] && a.id == Batch(s, process)[0] && a.process == process
    requires s'.attempts == s.attempts + [a] && s'.batches == s.batches[process := rest]
    requires s'.cursor == s.cursor && s'.dropped == s.dropped + left
    requires (rest == Batch(s, process)[1..] && left == {}) || (rest == [] && left == Ids(Batch(s, process)[1..]))
    ensures Queues(s')
  {
    HeadOfBatch(s, process);
    TriedAfter(s, s', a);
    assert forall id: nat | id in left :: InBatch(s, process, id) && a.id < id;
    assert forall p: nat, id: nat | InBatch(s', p, id) :: InBatch(s, p, id) && (p == process ==> id in rest);
  }

  lemma AttemptKeepsOrder(s: State, s': State, process: nat, rest: seq<nat>, a: Attempt)
    requires Inv(s) && Batch(s, process) != [] && a.id == Batch(s, process)[0] && a.process == process
    requires s'.attempts == s.attempts + [a] && s'.batches == s.batches[process := rest] && s'.cursor == s.cursor
    requires rest == [] || rest == Batch(s, process)[1..]
    ensures Order(s')
  {
    HeadOfBatch(s, process);
    var n := |s.attempts|;
    assert InBatch(s, process, a.id);
    forall i, j | 0 <= i < j < |s'.attempts| ensures s'.attempts[i].id != s'.attempts[j].id {
      if j == n {
        assert s.attempts[i].id != a.id;
      }
    }
    forall i, j | 0 <= i < j < |s'.attempts| && s'.attempts[i].process == s'.attempts[j].process
      ensures s'.attempts[i].id < s'.attempts[j].id
    {
      if j == n {
        assert s.attempts[i].process == process;
      }
    }
    forall i, id: nat | 0 <= i < |s'.attempts| && InBatch(s', s'.attempts[i].process, id)
      ensures s'.attempts[i].id < id
    {
      assert InBatch(s, s'.attempts[i].process, id);
    }
  }

  lemma AttemptKeepsAcks(s: State, s': State, a: Attempt)
    requires Inv(s) && !Tried(s, a.id) && a.id !in s.acked
    requires s'.attempts == s.attempts + [a]
    requires s'.acked == if a.acked then s.acked + {a.id} else s.acked
    requires a.acked ==> a.result.NoHandler? || a.result.Returned?
    ensures Acks(s')
  {
    forall id | id in s'.acked
      ensures exists i :: 0 <= i < |s'.attempts| && s'.attempts[i].id == id && s'.attempts[i].acked
    {
      if id in s.acked {
        var i :| 0 <= i < |s.attempts| && s.attempts[i].id == id && s.attempts[i].acked;
        assert s'.attempts[i].id == id && s'.attempts[i].acked;
      } else {
        assert s'.attempts[|s.attempts|] == a;
      }
    }
  }

  lemma AttemptKeepsAccounted(s: State, s': State, process: nat, rest: seq<nat>, a: Attempt, left: set<nat>, lost: nat)
    requires Inv(s) && Accounted(s, lost)
    requires Batch(s, process) != [] && a.id == Batch(s, process)[0] && a.process == process
    requires s'.attempts == s.attempts + [a] && s'.batches == s.batches[process := rest]
    requires s'.cursor == s.cursor && s'.dropped == s.dropped + left
    requires (rest == Batch(s, process)[1..] && left == {}) || (rest == [] && left == Ids(Batch(s, process)[1..]))
    ensures Accounted(s', lost)
  {
    HeadOfBatch(s, process);
    TriedAfter(s, s', a);
    forall id | 0 <= id < s'.cursor && Queued(s, id) && id != a.id && id !in left ensures Queued(s', id) {
      var p: nat :| InBatch(s, p, id);
      assert InBatch(s', p, id);
    }
  }

  lemma HandleKeepsInv(s: State, process: nat, handlers: set<string>, raises: bool, ackApplied: bool)
    requires Inv(s)
    ensures Inv(HandleStep(s, process, handlers, raises, ackApplied))
  {
    var s', batch := HandleStep(s, process, handlers, raises, ackApplied), Batch(s, process);
    if batch != [] {
      HeadOfBatch(s, process);
      var a := s'.attempts[|s.attempts|];
      AttemptKeepsQueues(s, s', process, batch[1..], a, {});
      AttemptKeepsOrder(s, s', process, batch[1..], a);
      AttemptKeepsAcks(s, s', a);
      AttemptKeepsAccounted(s, s', process, batch[1..], a, {}, s.trimmed);
    }
  }

  lemma DropKeepsAccounted(s: State, s': State, process: nat, lost: nat)
    requires Accounted(s, lost)
    requires s'.attempts == s.attempts && s'.batches == s.batches[process := []]
    requires s'.cursor == s.cursor && s'.dropped == s.dropped + Ids(Batch(s, process))
    ensures Accounted(s', lost)
  {
    forall id | lost <= id < s'.cursor ensures Tried(s', id) || Queued(s', id) || id in s'.dropped {
      if Tried(s, id) {
        assert Tried(s', id);
      } else if Queued(s, id) {
        var p: nat :| InBatch(s, p, id);
        assert p == process || InBatch(s', p, id);
      }
    }
  }

  lemma CancelKeepsInv(s: State, process: nat, midHandler: bool)
    requires Inv(s)
    ensures Inv(CancelStep(s, process, midHandler))
  {
    var s', batch := CancelStep(s, process, midHandler), Batch(s, process);
    if batch != [] {
      HeadOfBatch(s, process);
      if midHandler {
        var a := s'.attempts[|s.attempts|];
        AttemptKeepsQueues(s, s', process, [], a, Ids(batch[1..]));
        AttemptKeepsOrder(s, s', process, [], a);
        AttemptKeepsAcks(s, s', a);
        AttemptKeepsAccounted(s, s', process, [], a, Ids(batch[1..]), s.trimmed);
      } else {
        assert forall id: nat :: Tried(s', id) <==> Tried(s, id);
        assert forall id: nat | id in Ids(batch) :: InBatch(s, process, id);
        assert forall p: nat, id: nat | InBatch(s', p, id) :: InBatch(s, p, id) && p != process;
        DropKeepsAccounted(s, s', process, s.trimmed);
      }
    }
  }

  lemma OtherStepsKeepInv(s: State, e: Event)
    requires Inv(s) && (e.Publish? || e.EnsureGroup? || e.Reclaim?)
    ensures Inv(Step(s, e))
  {
    var s' := Step(s, e);
    assert forall id: nat :: Tried(s', id) <==> Tried(s, id);
    assert forall p: nat, id: nat :: InBatch(s', p, id) <==> InBatch(s, p, id);
    assert forall id: nat :: Queued(s', id) <==> Queued(s, id);
  }

  lemma StepKeepsInv(s: State, e: Event)
    requires Inv(s)
    ensures Inv(Step(s, e))
  {
    match e
    case Read(process, count, replyLost) => ReadKeepsInv(s, process, count, replyLost);
    case Handle(process, handlers, raises, ackApplied) => HandleKeepsInv(s, process, handlers, raises, ackApplied);
    case Cancel(process, midHandler) => CancelKeepsInv(s, process, midHandler);
    case Publish(_, _) => OtherStepsKeepInv(s, e);
    case EnsureGroup => OtherStepsKeepInv(s, e);
    case Reclaim(_) => OtherStepsKeepInv(s, e);
  }

  // ---------- Every run ----------

  lemma {:induction false} RunKeepsInv(s: State, es: seq<Event>)
    requires Inv(s)
    ensures Inv(Run(s, es))
  {
    if es != [] {
      RunKeepsInv(s, es[..|es| - 1]);
      StepKeepsInv(Run(s, es[..|es| - 1]), es[|es| - 1]);
    }
  }

  // Whatever the processes do, no entry is handled twice, each process handles its entries in log
  // order, and only delivered entries are handled.
  lemma HandledAtMostOnce(es: seq<Event>, i: nat, j: nat)
    requires i < j < |Run(EMPTY, es).attempts|
    ensures var s := Run(EMPTY, es);
            && s.attempts[i].id != s.attempts[j].id
            && s.attempts[i].id < s.cursor && s.attempts[j].id < s.cursor
            && (s.attempts[i].process == s.attempts[j].process ==> s.attempts[i].id < s.attempts[j].id)
  {
    RunKeepsInv(EMPTY, es);
  }

  // A retained entry is undelivered, pending or acknowledged, and only one of the three.
  lemma RetainedEntriesSplit(es: seq<Event>, id: nat)
    requires Run(EMPTY, es).trimmed <= id < |Run(EMPTY, es).log|
    ensures var s := Run(EMPTY, es);
            && (id >= s.cursor || id in s.pending || id in s.acked)
            && !(id >= s.cursor && (id in s.pending || id in s.acked))
            && !(id in s.pending && id in s.acked)
  {
    RunKeepsInv(EMPTY, es);
  }

  // An entry is acknowledged exactly when an attempt acknowledged it, and then its handler had
  // returned or it had none.
  lemma {:induction false} AckedIffHandled(es: seq<Event>, id: nat)
    ensures var s := Run(EMPTY, es);
            id in s.acked <==>
            exists a :: a in s.attempts && a.id == id && a.acked && (a.result.Returned? || a.result.NoHandler?)
  {
    RunKeepsInv(EMPTY, es);
    var s := Run(EMPTY, es);
    if id in s.acked {
      var i :| 0 <= i < |s.attempts| && s.attempts[i].id == id && s.attempts[i].acked;
      assert s.attempts[i] in s.attempts;
    }
  }

  lemma StepKeepsAttempts(s: State, e: Event)
    ensures s.attempts <= Step(s, e).attempts
  {
  }

  lemma {:induction false} AttemptsArePermanent(s: State, es: seq<Event>)
    ensures s.attempts <= Run(s, es).attempts
  {
    if es != [] {
      var n := |es| - 1;
      AttemptsArePermanent(s, es[..n]);
      StepKeepsAttempts(Run(s, es[..n]), es[n]);
    }
  }

  lemma RunPair(s: State, es: seq<Event>, a: Event, b: Event)
    ensures Run(s, es + [a, b]) == Step(Step(Run(s, es), a), b)
  {
    assert (es + [a, b])[..|es| + 1] == es + [a] && (es + [a])[..|es|] == es;
  }

  lemma RunSix(s: State, a: Event, b: Event, c: Event, d: Event, e: Event, f: Event)
    ensures Run(s, [a, b, c, d, e, f]) == Step(Step(Step(Step(Step(Step(s, a), b), c), d), e), f)
  {
    RunPair(s, [], a, b);
    RunPair(s, [a, b], c, d);
    RunPair(s, [a, b, c, d], e, f);
    assert [] + [a, b] == [a, b] && [a, b] + [c, d] == [a, b, c, d] && [a, b, c, d] + [e, f] == [a, b, c, d, e, f];
  }

  // A handler raises on its first message. Nothing brings the message back: after a reclaim and
  // another read it has had one attempt, is pending, and is in no batch.
  lemma RaisedEntryIsNotRetried(process: nat, eventType: string, count: nat, purged: set<nat>)
    requires count >= 1
    ensures var es := [EnsureGroup, Publish(Message(Some(eventType)), 0), Read(process, count, false),
                       Handle(process, {eventType}, true, true), Reclaim(purged), Read(process, count, false)];
            var s := Run(EMPTY, es);
            && s.attempts == [Attempt(process, 0, Raised, false)]
            && s.trimmed == 0 && s.pending == {0} && s.acked == {} && !Queued(s, 0)
  {
    var message := Message(Some(eventType));
    RunSix(EMPTY, EnsureGroup, Publish(message, 0), Read(process, count, false),
           Handle(process, {eventType}, true, true), Reclaim(purged), Read(process, count, false));
    var s1 := PublishStep(EMPTY.(grouped := true), message, 0);
    assert s1 == State([message], 0, true, 0, {}, {}, map[], [], {});
    assert Deliverable(s1, count) == [0];
    var s2 := ReadStep(s1, process, count, false);
    assert s2 == State([message], 0, true, 1, {0}, {}, map[process := [0]], [], {});
    var s3 := HandleStep(s2, process, {eventType}, true, true);
    assert s3.batches[process] == [] && s3.batches.Keys == {process};
    assert s3.pending == {0} && s3.attempts == [Attempt(process, 0, Raised, false)];
    var s4 := ReclaimStep(s3, purged);
    assert s4.pending == {0};
    assert Deliverable(s4, count) == [];
  }

  // An entry whose attempt did not acknowledge it is never handled again and never acknowledged: it
  // stays pending for as long as it is in the stream. Reclaiming does not bring it back.
  lemma UnackedEntryIsStuck(es: seq<Event>, fs: seq<Event>, i: nat)
    requires i < |Run(EMPTY, es).attempts| && !Run(EMPTY, es).attempts[i].acked
    ensures var s := Run(EMPTY, es);
            var s' := Run(s, fs);
            var id := s.attempts[i].id;
            && id !in s'.acked
            && (id >= s'.trimmed ==> id in s'.pending)
            && forall j | 0 <= j < |s'.attempts| && s'.attempts[j].id == id :: j == i
  {
    var s := Run(EMPTY, es);
    RunKeepsInv(EMPTY, es);
    RunKeepsInv(s, fs);
    AttemptsArePermanent(s, fs);
    assert Run(s, fs).attempts[i] == s.attempts[i];
  }

  // ---------- Loss ----------

  // A delivered position that no process ever saw, or an undelivered entry that is gone from the
  // stream, has at least 10,000 later entries.
  lemma LossTakesMaxlenLaterEntries(es: seq<Event>, id: nat)
    requires var s := Run(EMPTY, es);
             || (id < s.cursor && !Tried(s, id) && !Queued(s, id) && id !in s.dropped)
             || (s.cursor <= id < s.trimmed)
    ensures |Run(EMPTY, es).log| - 1 - id >= 10_000
  {
    RunKeepsInv(EMPTY, es);
  }

  // Each step accounts for every delivered position, as long as the stream has not been trimmed
  // beyond the cursor.
  lemma StepKeepsCovered(s: State, e: Event)
    requires Inv(s) && Accounted(s, 0) && s.trimmed <= s.cursor
    ensures Accounted(Step(s, e), 0)
  {
    var s' := Step(s, e);
    if s' != s {
      match e
      case Read(process, count, _) =>
        DeliverableMembers(s, count);
        ReadKeepsAccounted(s, s', process, Deliverable(s, count), 0);
      case Handle(process, _, _, _) =>
        var batch := Batch(s, process);
        AttemptKeepsAccounted(s, s', process, batch[1..], s'.attempts[|s.attempts|], {}, 0);
      case Cancel(process, midHandler) =>
        if midHandler {
          AttemptKeepsAccounted(s, s', process, [], s'.attempts[|s.attempts|], Ids(Batch(s, process)[1..]), 0);
        } else {
          DropKeepsAccounted(s, s', process, 0);
        }
      case Publish(_, _) => SameAccount(s, s');
      case EnsureGroup => SameAccount(s, s');
      case Reclaim(_) => SameAccount(s, s');
    }
  }

  lemma SameAccount(s: State, s': State)
    requires Accounted(s, 0)
    requires s'.attempts == s.attempts && s'.batches == s.batches && s'.cursor == s.cursor && s'.dropped == s.dropped
    ensures Accounted(s', 0)
  {
    assert forall id: nat :: Tried(s', id) <==> Tried(s, id);
    assert forall p: nat, id: nat :: InBatch(s', p, id) <==> InBatch(s, p, id);
    assert forall id: nat :: Queued(s', id) <==> Queued(s, id);
  }

  // The group's lag: the entries published and not yet delivered.
  function Lag(s: State): int {
    |s.log| - s.cursor
  }

  ghost predicate KeepsUp(es: seq<Event>) {
    forall k | 0 <= k <= |es| :: Lag(Run(EMPTY, es[..k])) <= 10_000
  }

  // A group whose lag never exceeds the retention bound loses nothing: every delivered entry has been
  // handled, waits in a batch, or was read by a process that was stopped before it got to it.
  lemma {:induction false} KeepingUpLosesNothing(es: seq<Event>)
    requires KeepsUp(es)
    ensures Accounted(Run(EMPTY, es), 0)
  {
    if es != [] {
      var n := |es| - 1;
      var fs := es[..n];
      forall k | 0 <= k <= |fs| ensures Lag(Run(EMPTY, fs[..k])) <= 10_000 {
        assert fs[..k] == es[..k];
      }
      KeepingUpLosesNothing(fs);
      RunKeepsInv(EMPTY, fs);
      assert fs[..n] == fs;
      assert Lag(Run(EMPTY, fs)) <= 10_000;
      StepKeepsCovered(Run(EMPTY, fs), es[n]);
    }
  }
}
