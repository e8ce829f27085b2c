// Time entries: drafts, the timer, submission and approval, and the audit trail of approvals.
module Timelog {
  import opened Prelude

  datatype Status = Draft | Submitted | Approved | Rejected

  datatype Details = Details(date: int, task: Option<nat>, description: Option<string>, billable: bool)

  // `live` is "deleted_at is null". An entry's position is its identifier.
  datatype Entry = Entry(
    tenant: nat, user: nat, project: nat, status: Status, started: Option<int>, ended: Option<int>, duration: int,
    details: Details, live: bool)

  datatype Action = WasSubmitted | WasApproved | WasRejected

  datatype Approval = Approval(tenant: nat, entry: nat, actor: nat, action: Action, notes: Option<string>)

  datatype Log = Log(entries: seq<Entry>, approvals: seq<Approval>)

  type Minutes = m: int | 1 <= m <= 1440 witness 1

  // The fields an update sends; the others stay as they are.
  datatype Patch = Patch(
    date: Option<int>, duration: Option<Minutes>, description: Option<string>, billable: Option<bool>,
    task: Option<nat>)

  // An instant sent by a client may lack a time zone, and then it cannot be compared with a stored one.
  datatype Stamp = Stamp(micros: int, zoned: bool)

  datatype Event =
    | Create(tenant: nat, user: nat, project: nat, duration: Minutes, details: Details)
    | Update(tenant: nat, user: nat, id: nat, patch: Patch)
    | Remove(tenant: nat, user: nat, id: nat)
    | StartTimer(tenant: nat, id: nat, now: int)
    | StopTimer(tenant: nat, id: nat, at: Option<Stamp>, now: int)
    | Submit(tenant: nat, user: nat, id: nat)
    | Approve(tenant: nat, user: nat, manager: bool, id: nat)
    | Reject(tenant: nat, user: nat, manager: bool, id: nat, notes: Option<string>)

  datatype Outcome = Ok | NotFound | Forbidden | Unprocessable | ServerError

  // ---------- Handlers as functions of the tables ----------

  predicate Visible(l: Log, tenant: nat, id: nat) {
    id < |l.entries| && l.entries[id].tenant == tenant && l.entries[id].live
  }

  // Whole minutes of a span, towards zero.
  function WholeMinutes(span: int): int {
    if span >= 0 then span / MINUTE else -((-span) / MINUTE)
  }

  function Stopped(e: Entry, ended: int): Entry
    requires e.started.Some?
  {
    var minutes := WholeMinutes(ended - e.started.value);
    e.(ended := Some(ended), duration := if minutes > 1 then minutes else 1)
  }

  function Patched(e: Entry, p: Patch): Entry {
    var d := e.details;
    e.(duration := if p.duration.Some? then p.duration.value else e.duration,
       details := Details(if p.date.Some? then p.date.value else d.date,
                          if p.task.Some? then p.task else d.task,
                          if p.description.Some? then p.description else d.description,
                          if p.billable.Some? then p.billable.value else d.billable))
  }

  function NewEntry(tenant: nat, user: nat, project: nat, duration: Minutes, details: Details): Entry {
    Entry(tenant, user, project, Draft, None, None, duration, details, true)
  }

  function Replace(l: Log, id: nat, e: Entry): Log
    requires id < |l.entries|
  {
    l.(entries := l.entries[id := e])
  }

  function Decide(l: Log, tenant: nat, user: nat, id: nat, from: Status, to: Status, action: Action,
                  notes: Option<string>): (Log, Outcome)
  {
    if !Visible(l, tenant, id) then (l, NotFound)
    else if l.entries[id].status != from then (l, Unprocessable)
    else (Log(l.entries[id := l.entries[id].(status := to)],
              l.approvals + [Approval(tenant, id, user, action, notes)]), Ok)
  }

  function Step(l: Log, e: Event): (Log, Outcome) {
    match e
    case Create(tenant, user, project, duration, details) =>
      (l.(entries := l.entries + [NewEntry(tenant, user, project, duration, details)]), Ok)
    case Update(tenant, user, id, patch) =>
      if !Visible(l, tenant, id) then (l, NotFound)
      else if l.entries[id].user != user then (l, Forbidden)
      else if l.entries[id].status != Draft then (l, Unprocessable)
      else (Replace(l, id, Patched(l.entries[id], patch)), Ok)
    case Remove(tenant, user, id) =>
      if !Visible(l, tenant, id) then (l, NotFound)
      else if l.entries[id].user != user then (l, Forbidden)
      else if l.entries[id].status != Draft then (l, Unprocessable)
      else (Replace(l, id, l.entries[id].(live := false)), Ok)
    case StartTimer(tenant, id, now) =>
      if !Visible(l, tenant, id) then (l, NotFound)
      else if l.entries[id].started.Some? then (l, Unprocessable)
      else (Replace(l, id, l.entries[id].(started := Some(now))), Ok)
    case StopTimer(tenant, id, at, now) =>
      if !Visible(l, tenant, id) then (l, NotFound)
      else if l.entries[id].started.None? then (l, Unprocessable)
      else if at.Some? && !at.value.zoned then (l, ServerError)
      else (Replace(l, id, Stopped(l.entries[id], if at.Some? then at.value.micros else now)), Ok)
    case Submit(tenant, user, id) => Decide(l, tenant, user, id, Draft, Submitted, WasSubmitted, None)
    case Approve(tenant, user, manager, id) =>
      if !manager then (l, Forbidden)
      else Decide(l, tenant, user, id, Submitted, Approved, WasApproved, None)
    case Reject(tenant, user, manager, id, notes) =>
      if !manager then (l, Forbidden)
      else Decide(l, tenant, user, id, Submitted, Rejected, WasRejected, notes)
  }

  function Run(l: Log, es: seq<Event>): Log
    decreases |es|
  {
    if es == [] then l else Run(Step(l, es[0]).0, es[1..])
  }

  const EMPTY: Log := Log([], [])

  // ---------- The service ----------

  class TimelogService {
    var entries: seq<Entry>
    var approvals: seq<Approval>

    function State(): Log
      reads this
    {
      Log(entries, approvals)
    }

    constructor ()
      ensures State() == EMPTY
    {
      entries, approvals := [], [];
    }

    method GetEntry(tenant: nat, id: nat) returns (found: Option<Entry>)
      ensures found == if Visible(State(), tenant, id) then Some(entries[id]) else None
    {
      if id < |entries| && entries[id].tenant == tenant && entries[id].live {
        return Some(entries[id]);
      }
      return None;
    }

    method CreateEntry(tenant: nat, user: nat, project: nat, duration: Minutes, details: Details) returns (r: Outcome)
      modifies this
      ensures (State(), r) == Step(old(State()), Create(tenant, user, project, duration, details))
    {
      entries := entries + [Entry(tenant, user, project, Draft, None, None, duration, details, true)];
      return Ok;
    }

    method UpdateEntry(tenant: nat, user: nat, id: nat, patch: Patch) returns (r: Outcome)
      modifies this
      ensures (State(), r) == Step(old(State()), Update(tenant, user, id, patch))
    {
      var found := GetEntry(tenant, id);
      if found.None? {
        return NotFound;
      }
      if found.value.user != user {
        return Forbidden;
      }
      if found.value.status != Draft {
        return Unprocessable;
      }
      var entry := found.value;
      if patch.date.Some? {
        entry := entry.(details := entry.details.(date := patch.date.value));
      }
      if patch.duration.Some? {
        entry := entry.(duration := patch.duration.value);
      }
      if patch.description.Some? {
        entry := entry.(details := entry.details.(description := patch.description));
      }
      if patch.billable.Some? {
        entry := entry.(details := entry.details.(billable := patch.billable.value));
      }
      if patch.task.Some? {
        entry := entry.(details := entry.details.(task := patch.task));
      }
      entries := entries[id := entry];
      return Ok;
    }

    method DeleteEntry(tenant: nat, user: nat, id: nat) returns (r: Outcome)
      modifies this
      ensures (State(), r) == Step(old(State()), Remove(tenant, user, id))
    {
      var found := GetEntry(tenant, id);
      if found.None? {
        return NotFound;
      }
      if found.value.user != user {
        return Forbidden;
      }
      if found.value.status != Draft {
        return Unprocessable;
      }
      entries := entries[id := entries[id].(live := false)];
      return Ok;
    }

    method StartTimer(tenant: nat, id: nat, now: int) returns (r: Outcome)
      modifies this
      ensures (State(), r) == Step(old(State()), Event.StartTimer(tenant, id, now))
    {
      var found := GetEntry(tenant, id);
      if found.None? {
        return NotFound;
      }
      if found.value.started.Some? {
        return Unprocessable;
      }
      entries := entries[id := entries[id].(started := Some(now))];
      return Ok;
    }

    method StopTimer(tenant: nat, id: nat, at: Option<Stamp>, now: int) returns (r: Outcome)
      modifies this
      ensures (State(), r) == Step(old(State()), Event.StopTimer(tenant, id, at, now))
    {
      var found := GetEntry(tenant, id);
      if found.None? {
        return NotFound;
      }
      var entry := found.value;
      if entry.started.None? {
        return Unprocessable;
      }
      var ended := if at.Some? then at.value else Stamp(now, true);
      entry := entry.(ended := Some(ended.micros));
      if !ended.zoned {
        return ServerError;
      }
      var delta := ended.micros - entry.started.value;
      var minutes := WholeMinutes(delta);
      entry := entry.(duration := if 1 >= minutes then 1 else minutes);
      entries := entries[id := entry];
      return Ok;
    }

    method SubmitEntry(tenant: nat, user: nat, id: nat) returns (r: Outcome)
      modifies this
      ensures (State(), r) == Step(old(State()), Submit(tenant, user, id))
    {
      var found := GetEntry(tenant, id);
      if found.None? {
        return NotFound;
      }
      if found.value.status != Draft {
        return Unprocessable;
      }
      entries := entries[id := entries[id].(status := Submitted)];
      approvals := approvals + [Approval(tenant, id, user, WasSubmitted, None)];
      return Ok;
    }

    method ApproveEntry(tenant: nat, user: nat, manager: bool, id: nat) returns (r: Outcome)
      modifies this
      ensures (State(), r) == Step(old(State()), Approve(tenant, user, manager, id))
    {
      if !manager {
        return Forbidden;
      }
      var found := GetEntry(tenant, id);
      if found.None? {
        return NotFound;
      }
      if found.value.status != Submitted {
        return Unprocessable;
      }
      entries := entries[id := entries[id].(status := Approved)];
      approvals := approvals + [Approval(tenant, id, user, WasApproved, None)];
      return Ok;
    }

    method RejectEntry(tenant: nat, user: nat, manager: bool, id: nat, notes: Option<string>) returns (r: Outcome)
      modifies this
      ensures (State(), r) == Step(old(State()), Reject(tenant, user, manager, id, notes))
    {
      if !manager {
        return Forbidden;
      }
      var found := GetEntry(tenant, id);
      if found.None? {
        return NotFound;
      }
      if found.value.status != Submitted {
        return Unprocessable;
      }
      entries := entries[id := entries[id].(status := Rejected)];
      approvals := approvals + [Approval(tenant, id, user, WasRejected, notes)];
      return Ok;
    }
  }

  // ---------- The status is the replay of the trail ----------

  // The actions recorded for one entry, oldest first.
  function Trail(approvals: seq<Approval>, id: nat): seq<Action> {
    if approvals == [] then []
    else
      var n := |approvals| - 1;
      Trail(approvals[..n], id) + if approvals[n].entry == id then [approvals[n].action] else []
  }

  // An auditor's reading of a trail: nothing else is a possible history of an entry.
  function Replay(trail: seq<Action>): Option<Status> {
    if trail == [] then Some(Draft)
    else
      match (Replay(trail[..|trail| - 1]), trail[|trail| - 1])
      case (Some(Draft), WasSubmitted) => Some(Submitted)
      case (Some(Submitted), WasApproved) => Some(Approved)
      case (Some(Submitted), WasRejected) => Some(Rejected)
      case _ => None
  }

  ghost predicate Audited(l: Log) {
    && (forall i: nat | i < |l.entries| ::
          var e := l.entries[i];
          && Replay(Trail(l.approvals, i)) == Some(e.status)
          && e.duration >= 1
          && (!e.live ==> e.status == Draft))
    && (forall k | 0 <= k < |l.approvals| ::
          l.approvals[k].entry < |l.entries| && l.approvals[k].tenant == l.entries[l.approvals[k].entry].tenant)
  }

  lemma TrailAppend(approvals: seq<Approval>, a: Approval, id: nat)
    ensures Trail(approvals + [a], id) == Trail(approvals, id) + if a.entry == id then [a.action] else []
  {
    assert (approvals + [a])[..|approvals|] == approvals;
  }

  lemma {:induction false} NoTrail(approvals: seq<Approval>, id: nat)
    requires forall k | 0 <= k < |approvals| :: approvals[k].entry != id
    ensures Trail(approvals, id) == []
  {
    if approvals != [] {
      NoTrail(approvals[..|approvals| - 1], id);
    }
  }

  lemma DecideKeepsAudit(l: Log, tenant: nat, user: nat, id: nat, from: Status, to: Status, action: Action,
                         notes: Option<string>)
    requires Audited(l)
    requires forall trail: seq<Action> :: Replay(trail) == Some(from) ==> Replay(trail + [action]) == Some(to)
    ensures Audited(Decide(l, tenant, user, id, from, to, action, notes).0)
  {
    var l' := Decide(l, tenant, user, id, from, to, action, notes).0;
    if l' != l {
      forall i: nat | i < |l'.entries|
        ensures Replay(Trail(l'.approvals, i)) == Some(l'.entries[i].status)
      {
        TrailAppend(l.approvals, Approval(tenant, id, user, action, notes), i);
        if i != id {
          assert Trail(l'.approvals, i) == Trail(l.approvals, i);
        }
      }
    }
  }

  lemma ReplayNext(action: Action, from: Status, to: Status)
    requires (action, from, to) in {(WasSubmitted, Draft, Submitted), (WasApproved, Submitted, Approved),
                                    (WasRejected, Submitted, Rejected)}
    ensures forall trail: seq<Action> :: Replay(trail) == Some(from) ==> Replay(trail + [action]) == Some(to)
  {
    forall trail: seq<Action> | Replay(trail) == Some(from) ensures Replay(trail + [action]) == Some(to) {
      assert (trail + [action])[..|trail|] == trail;
    }
  }

  // Changing entries in place without touching a status, or deleting a draft.
  lemma EditKeepsAudit(l: Log, id: nat, e: Entry)
    requires Audited(l) && id < |l.entries|
    requires e.status == l.entries[id].status && e.tenant == l.entries[id].tenant && e.duration >= 1
    requires !e.live ==> e.status == Draft
    ensures Audited(Replace(l, id, e))
  {
  }

  lemma CreateKeepsAudit(l: Log, e: Event)
    requires Audited(l) && e.Create?
    ensures Audited(Step(l, e).0)
  {
    NoTrail(l.approvals, |l.entries|);
  }

  lemma StepKeepsAudit(l: Log, e: Event)
    requires Audited(l)
    ensures Audited(Step(l, e).0)
  {
    match e
    case Submit(tenant, user, id) =>
      ReplayNext(WasSubmitted, Draft, Submitted);
      DecideKeepsAudit(l, tenant, user, id, Draft, Submitted, WasSubmitted, None);
    case Approve(tenant, user, manager, id) =>
      ReplayNext(WasApproved, Submitted, Approved);
      DecideKeepsAudit(l, tenant, user, id, Submitted, Approved, WasApproved, None);
    case Reject(tenant, user, manager, id, notes) =>
      ReplayNext(WasRejected, Submitted, Rejected);
      DecideKeepsAudit(l, tenant, user, id, Submitted, Rejected, WasRejected, notes);
    case Create(_, _, _, _, _) => CreateKeepsAudit(l, e);
    case _ =>
      var l' := Step(l, e).0;
      if l' != l {
        EditKeepsAudit(l, e.id, l'.entries[e.id]);
      }
  }

  lemma {:induction false} RunKeepsAudit(l: Log, es: seq<Event>)
    requires Audited(l)
    ensures Audited(Run(l, es))
    decreases |es|
  {
    if es != [] {
      StepKeepsAudit(l, es[0]);
      RunKeepsAudit(Step(l, es[0]).0, es[1..]);
    }
  }

  lemma {:induction false} ReplayableTrails(trail: seq<Action>)
    ensures Replay(trail) == Some(Draft) <==> trail == []
    ensures Replay(trail) == Some(Submitted) <==> trail == [WasSubmitted]
    ensures Replay(trail) == Some(Approved) <==> trail == [WasSubmitted, WasApproved]
    ensures Replay(trail) == Some(Rejected) <==> trail == [WasSubmitted, WasRejected]
  {
    if trail != [] {
      var n := |trail| - 1;
      ReplayableTrails(trail[..n]);
      assert trail == trail[..n] + [trail[n]];
    }
  }

  // In every run an entry's status is what its audit trail says, and each status has one trail.
  lemma StatusIsTheTrail(es: seq<Event>, i: nat)
    requires i < |Run(EMPTY, es).entries|
    ensures var l := Run(EMPTY, es);
            var e := l.entries[i];
            && Trail(l.approvals, i) == (match e.status
                 case Draft => []
                 case Submitted => [WasSubmitted]
                 case Approved => [WasSubmitted, WasApproved]
                 case Rejected => [WasSubmitted, WasRejected])
            && e.duration >= 1
            && (!e.live ==> e.status == Draft && Trail(l.approvals, i) == [])
  {
    RunKeepsAudit(EMPTY, es);
    ReplayableTrails(Trail(Run(EMPTY, es).approvals, i));
  }

  // ---------- What is final ----------

  predicate Decided(s: Status) {
    s == Approved || s == Rejected
  }

  // A deleted or decided entry.
  predicate Final(e: Entry) {
    !e.live || Decided(e.status)
  }

  lemma StepKeepsFinalEntry(l: Log, e: Event, i: nat)
    requires i < |l.entries| && Final(l.entries[i])
    ensures var l' := Step(l, e).0;
            && i < |l'.entries| && Final(l'.entries[i])
            && l'.entries[i].status == l.entries[i].status
            && (!l.entries[i].live ==> l'.entries[i] == l.entries[i])
  {
  }

  lemma DecideLeavesOtherTrails(l: Log, tenant: nat, user: nat, id: nat, from: Status, to: Status, action: Action,
                                notes: Option<string>, i: nat)
    requires i < |l.entries| && (i != id || l.entries[i].status != from || !l.entries[i].live)
    ensures Trail(Decide(l, tenant, user, id, from, to, action, notes).0.approvals, i) == Trail(l.approvals, i)
  {
    if i != id {
      TrailAppend(l.approvals, Approval(tenant, id, user, action, notes), i);
    }
  }

  lemma StepKeepsFinalTrail(l: Log, e: Event, i: nat)
    requires i < |l.entries| && Final(l.entries[i])
    ensures Trail(Step(l, e).0.approvals, i) == Trail(l.approvals, i)
  {
    match e
    case Submit(tenant, user, id) =>
      DecideLeavesOtherTrails(l, tenant, user, id, Draft, Submitted, WasSubmitted, None, i);
    case Approve(tenant, user, _, id) =>
      DecideLeavesOtherTrails(l, tenant, user, id, Submitted, Approved, WasApproved, None, i);
    case Reject(tenant, user, _, id, notes) =>
      DecideLeavesOtherTrails(l, tenant, user, id, Submitted, Rejected, WasRejected, notes, i);
    case _ =>
  }

  lemma {:induction false} DeletedIsFrozen(l: Log, es: seq<Event>, i: nat)
    requires i < |l.entries| && !l.entries[i].live
    ensures i < |Run(l, es).entries| && Run(l, es).entries[i] == l.entries[i]
    ensures Trail(Run(l, es).approvals, i) == Trail(l.approvals, i)
    decreases |es|
  {
    if es != [] {
      StepKeepsFinalEntry(l, es[0], i);
      StepKeepsFinalTrail(l, es[0], i);
      DeletedIsFrozen(Step(l, es[0]).0, es[1..], i);
    }
  }

  // A decided entry keeps its decision, and its trail gets no further record.
  lemma {:induction false} DecisionIsFinal(l: Log, es: seq<Event>, i: nat)
    requires i < |l.entries| && Decided(l.entries[i].status)
    ensures i < |Run(l, es).entries| && Run(l, es).entries[i].status == l.entries[i].status
    ensures Trail(Run(l, es).approvals, i) == Trail(l.approvals, i)
    decreases |es|
  {
    if es != [] {
      StepKeepsFinalEntry(l, es[0], i);
      StepKeepsFinalTrail(l, es[0], i);
      DecisionIsFinal(Step(l, es[0]).0, es[1..], i);
    }
  }

  // ---------- The timer ----------

  // d is the number of minutes recorded for a span: its whole minutes, and at least one.
  predicate MinutesOf(span: int, d: int) {
    if d == 1 then span < 2 * MINUTE else d > 1 && MINUTE * d <= span < MINUTE * (d + 1)
  }

  lemma StoppedMinutes(e: Entry, ended: int, d: int)
    requires e.started.Some?
    ensures Stopped(e, ended).duration == d <==> MinutesOf(ended - e.started.value, d)
    ensures var span, r := ended - e.started.value, Stopped(e, ended).duration;
            r >= 1 && (span >= MINUTE ==> MINUTE * r <= span < MINUTE * (r + 1)) && (span < MINUTE ==> r == 1)
  {
    var span := ended - e.started.value;
    if span >= 0 {
      assert MINUTE * (span / MINUTE) <= span < MINUTE * (span / MINUTE) + MINUTE;
    }
  }

  // A stop of entry i that is accepted, and the span it measures.
  predicate StopsTimer(l: Log, e: Event, i: nat) {
    && e.StopTimer? && e.id == i && Visible(l, e.tenant, i)
    && l.entries[i].started.Some? && (e.at.Some? ==> e.at.value.zoned)
  }

  function Span(l: Log, e: Event, i: nat): int
    requires StopsTimer(l, e, i)
  {
    (if e.at.Some? then e.at.value.micros else e.now) - l.entries[i].started.value
  }

  // A submitted, approved or rejected entry.
  predicate Handed(l: Log, i: nat) {
    i < |l.entries| && l.entries[i].live && l.entries[i].status != Draft
  }

  // The duration of such an entry is not frozen: it changes exactly on an accepted stop whose span
  // is outside the minutes recorded so far.
  lemma HandedDurationChangesIff(l: Log, e: Event, i: nat)
    requires Handed(l, i)
    ensures Step(l, e).0.entries[i].duration != l.entries[i].duration <==>
            StopsTimer(l, e, i) && !MinutesOf(Span(l, e, i), l.entries[i].duration)
  {
    if StopsTimer(l, e, i) {
      StoppedMinutes(l.entries[i], if e.at.Some? then e.at.value.micros else e.now, l.entries[i].duration);
    }
  }

  lemma StepKeepsHanded(l: Log, e: Event, i: nat)
    requires Handed(l, i)
    ensures Handed(Step(l, e).0, i)
  {
  }

  // The span of the last stop of the run that was accepted.
  function LastSpan(l: Log, es: seq<Event>, i: nat): Option<int>
    decreases |es|
  {
    if es == [] then None
    else
      var later := LastSpan(Step(l, es[0]).0, es[1..], i);
      if later.Some? then later
      else if StopsTimer(l, es[0], i) then Some(Span(l, es[0], i))
      else None
  }

  // Over every run the duration of an entry that has been handed in is that of the last accepted
  // stop, and the old one if no stop was accepted.
  lemma {:induction false} DurationIsTheLastStop(l: Log, es: seq<Event>, i: nat)
    requires Handed(l, i)
    ensures Handed(Run(l, es), i)
    ensures var d, last := Run(l, es).entries[i].duration, LastSpan(l, es, i);
            if last.Some? then MinutesOf(last.value, d) else d == l.entries[i].duration
    decreases |es|
  {
    if es != [] {
      var l' := Step(l, es[0]).0;
      StepKeepsHanded(l, es[0], i);
      DurationIsTheLastStop(l', es[1..], i);
      HandedDurationChangesIff(l, es[0], i);
      if StopsTimer(l, es[0], i) {
        var ended := if es[0].at.Some? then es[0].at.value.micros else es[0].now;
        StoppedMinutes(l.entries[i], ended, l'.entries[i].duration);
      }
    }
  }

  // At most two requests give a live entry any duration, whatever its status and whether or not its
  // timer was ever started.
  lemma AnyDurationIsReachable(l: Log, i: nat, d: int) returns (es: seq<Event>)
    requires i < |l.entries| && l.entries[i].live && d >= 1
    ensures |es| <= 2
    ensures var l' := Run(l, es);
            && |l'.entries| == |l.entries| && l'.entries[i].duration == d
            && l'.entries[i].status == l.entries[i].status && l'.approvals == l.approvals
  {
    var e := l.entries[i];
    var start := StartTimer(e.tenant, i, 0);
    var l1 := if e.started.Some? then l else Step(l, start).0;
    var stop := StopTimer(e.tenant, i, Some(Stamp(l1.entries[i].started.value + MINUTE * d, true)), 0);
    StoppedMinutes(l1.entries[i], l1.entries[i].started.value + MINUTE * d, d);
    es := [stop];
    assert Run(l1, [stop]) == Step(l1, stop).0;
    if e.started.None? {
      es := [start, stop];
      assert es[1..] == [stop];
    }
  }

  lemma ApprovedDurationCanChange()
    ensures var details := Details(0, None, None, true);
            var es := [Create(0, 1, 0, 30, details), Submit(0, 1, 0), Approve(0, 2, true, 0)];
            var l := Run(EMPTY, es);
            && |l.entries| == 1 && l.entries[0].live && l.entries[0].status == Approved && l.entries[0].duration == 30
            && exists fs :: |Run(l, fs).entries| == 1 && Run(l, fs).entries[0].status == Approved &&
                            Run(l, fs).entries[0].duration == 90
  {
    var details := Details(0, None, None, true);
    var es := [Create(0, 1, 0, 30, details), Submit(0, 1, 0), Approve(0, 2, true, 0)];
    var l1 := Step(EMPTY, es[0]).0;
    var l2 := Step(l1, es[1]).0;
    var l3 := Step(l2, es[2]).0;
    assert es[1..][1..] == es[2..] && es[2..][1..] == [];
    assert Run(l2, es[2..]) == l3;
    assert Run(l1, es[1..]) == l3;
    var fs := AnyDurationIsReachable(l3, 0, 90);
  }
}
