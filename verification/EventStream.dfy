// One stream of events, its consumer group, and any number of consumer processes: publishing with
// bounded retention, reading new entries, handling, acknowledging and reclaiming.
module EventStream {
  import opened Prelude

  const MAXLEN: nat := 10_000

  // The data field of an entry: the event type it names (empty if it names none), or nothing if it
  // cannot be decoded.
  datatype Message = Message(eventType: Option<string>)

  datatype Result = Malformed | NoHandler | Returned | Raised | Cancelled

  // One call of the message handler: by which process, for which entry, and how it ended.
  datatype Attempt = Attempt(process: nat, id: nat, result: Result, acked: bool)

  // An entry's identifier is its position in everything ever published. Entries below `trimmed`
  // are gone from the stream. `cursor` is the group's first entry not yet delivered, and `pending`
  // its pending list. `batches` is what each process has read and not yet handled. The last two
  // fields are history: the attempts made, in order, and the delivered entries that were never attempted.
  datatype State = State(
    log: seq<Message>,
    trimmed: nat,
    grouped: bool,
    cursor: nat,
    pending: set<nat>,
    acked: set<nat>,
    batches: map<nat, seq<nat>>,
    attempts: seq<Attempt>,
    dropped: set<nat>)

  const EMPTY: State := State([], 0, false, 0, {}, {}, map[], [], {})

  datatype Event =
    | Publish(message: Message, slack: nat)
    | EnsureGroup
    | Read(process: nat, count: nat, replyLost: bool)
    | Handle(process: nat, handlers: set<string>, raises: bool, ackApplied: bool)
    | Cancel(process: nat, midHandler: bool)
    | Reclaim(purged: set<nat>)

  function Max(a: int, b: int): int {
    if a > b then a else b
  }

  function Min(a: int, b: int): int {
    if a < b then a else b
  }

  function Batch(s: State, process: nat): seq<nat> {
    if process in s.batches then s.batches[process] else []
  }

  function Range(from: nat, until: nat): seq<nat>
    requires from <= until
  {
    seq(until - from, (i: nat) => from + i)
  }

  function Ids(batch: seq<nat>): set<nat> {
    set id | id in batch
  }

  // ---------- The commands and the handler as functions of the state ----------

  // Trimming is approximate: `slack` entries more than the bound may stay, never fewer.
  function PublishStep(s: State, message: Message, slack: nat): State {
    var log := s.log + [message];
    s.(log := log, trimmed := Max(s.trimmed, |log| - MAXLEN - slack))
  }

  // Up to `count` entries after the cursor that are still in the stream.
  function Deliverable(s: State, count: nat): seq<nat> {
    var from := Max(s.cursor, s.trimmed);
    if from > |s.log| then [] else Range(from, Min(|s.log|, from + count))
  }

  function ReadStep(s: State, process: nat, count: nat, replyLost: bool): State {
    var ids := Deliverable(s, count);
    if !s.grouped || Batch(s, process) != [] || ids == [] then s
    else
      var s' := s.(cursor := ids[|ids| - 1] + 1, pending := s.pending + Ids(ids));
      if replyLost then s'.(dropped := s.dropped + Ids(ids))
      else s'.(batches := s.batches[process := ids])
  }

  function ResultOf(m: Message, handlers: set<string>, raises: bool): Result {
    if m.eventType.None? then Malformed
    else if m.eventType.value !in handlers then NoHandler
    else if raises then Raised
    else Returned
  }

  // The process takes the first entry of its batch, dispatches it and, unless that failed, acknowledges it.
  function HandleStep(s: State, process: nat, handlers: set<string>, raises: bool, ackApplied: bool): State {
    var batch := Batch(s, process);
    if batch == [] || batch[0] >= |s.log| then s
    else
      var id := batch[0];
      var result := ResultOf(s.log[id], handlers, raises);
      var acked := ackApplied && (result.NoHandler? || result.Returned?);
      s.(batches := s.batches[process := batch[1..]],
         attempts := s.attempts + [Attempt(process, id, result, acked)],
         pending := if acked then s.pending - {id} else s.pending,
         acked := if acked then s.acked + {id} else s.acked)
  }

  // A cancelled process stops, in a handler or between two; the rest of its batch is never handled.
  function CancelStep(s: State, process: nat, midHandler: bool): State {
    var batch := Batch(s, process);
    if batch == [] then s
    else if midHandler then
      s.(batches := s.batches[process := []],
         attempts := s.attempts + [Attempt(process, batch[0], Cancelled, false)],
         dropped := s.dropped + Ids(batch[1..]))
    else
      s.(batches := s.batches[process := []], dropped := s.dropped + Ids(batch))
  }

  // The reply of the reclaim command is not used; on the server it can only forget pending entries
  // that are gone from the stream.
  function ReclaimStep(s: State, purged: set<nat>): State {
    s.(pending := set id | id in s.pending && !(id in purged && id < s.trimmed))
  }

  function Step(s: State, e: Event): State {
    match e
    case Publish(message, slack) => PublishStep(s, message, slack)
    case EnsureGroup => s.(grouped := true)
    case Read(process, count, replyLost) => ReadStep(s, process, count, replyLost)
    case Handle(process, handlers, raises, ackApplied) => HandleStep(s, process, handlers, raises, ackApplied)
    case Cancel(process, midHandler) => CancelStep(s, process, midHandler)
    case Reclaim(purged) => ReclaimStep(s, purged)
  }

  function Run(s: State, es: seq<Event>): State {
    if es == [] then s else Step(Run(s, es[..|es| - 1]), es[|es| - 1])
  }

  // ---------- What every reachable state satisfies ----------

  predicate InBatch(s: State, process: nat, id: nat) {
    process in s.batches && id in s.batches[process]
  }

  ghost predicate Queued(s: State, id: nat) {
    exists p: nat :: InBatch(s, p, id)
  }

  ghost predicate Tried(s: State, id: nat) {
    exists i | 0 <= i < |s.attempts| :: s.attempts[i].id == id
  }

  // Only entries with MAXLEN later ones are ever trimmed.
  ghost predicate Positions(s: State) {
    && s.cursor <= |s.log|
    && s.trimmed <= |s.log|
    && (s.trimmed == 0 || s.trimmed + MAXLEN <= |s.log|)
  }

  // The delivered entries that are retained split into pending and acknowledged ones.
  ghost predicate Ledger(s: State) {
    && (forall id | id in s.pending :: id < s.cursor && id !in s.acked)
    && (forall id | id in s.acked :: id < s.cursor)
    && (forall id | s.trimmed <= id < s.cursor :: id in s.pending || id in s.acked)
  }

  // A delivered entry waits in at most one batch, and only until it is attempted or dropped.
  ghost predicate Queues(s: State) {
    && (forall p | p in s.batches :: forall i, j | 0 <= i < j < |s.batches[p]| :: s.batches[p][i] < s.batches[p][j])
    && (forall p: nat, id: nat | InBatch(s, p, id) :: id < s.cursor && id !in s.dropped && !Tried(s, id))
    && (forall p: nat, q: nat, id: nat | InBatch(s, p, id) && InBatch(s, q, id) :: p == q)
    && (forall id | id in s.dropped :: id < s.cursor && !Tried(s, id))
  }

  // No entry is attempted twice, and each process attempts entries in log order.
  ghost predicate Order(s: State) {
    && (forall i | 0 <= i < |s.attempts| :: s.attempts[i].id < s.cursor)
    && (forall i, j | 0 <= i < j < |s.attempts| :: s.attempts[i].id != s.attempts[j].id)
    && (forall i, j | 0 <= i < j < |s.attempts| && s.attempts[i].process == s.attempts[j].process ::
          s.attempts[i].id < s.attempts[j].id)
    && (forall i, id: nat | 0 <= i < |s.attempts| && InBatch(s, s.attempts[i].process, id) :: s.attempts[i].id < id)
  }

  ghost predicate Acks(s: State) {
    && (forall id | id in s.acked :: exists i :: 0 <= i < |s.attempts| && s.attempts[i].id == id && s.attempts[i].acked)
    && (forall i | 0 <= i < |s.attempts| && s.attempts[i].acked ::
          s.attempts[i].id in s.acked && (s.attempts[i].result.NoHandler? || s.attempts[i].result.Returned?))
  }

  // Every delivered position from `lost` on is attempted, queued or dropped.
  ghost predicate Accounted(s: State, lost: nat) {
    forall id | lost <= id < s.cursor :: Tried(s, id) || Queued(s, id) || id in s.dropped
  }

  ghost predicate Inv(s: State) {
    Positions(s) && Ledger(s) && Queues(s) && Order(s) && Acks(s) && Accounted(s, s.trimmed)
  }
}
