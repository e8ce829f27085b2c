// What each time-entry request is answered and what it changes, read off the tables alone.
module TimelogAnswers {
  import opened Prelude
  import opened Timelog

  // The requests that only a manager, or only the entry's owner, may make.
  predicate Allowed(l: Log, e: Event) {
    && (e.Approve? || e.Reject? ==> e.manager)
    && (e.Update? || e.Remove? ==>
          e.id < |l.entries| && l.entries[e.id].tenant == e.tenant && l.entries[e.id].live ==>
          l.entries[e.id].user == e.user)
  }

  predicate Found(l: Log, e: Event)
    requires !e.Create?
  {
    e.id < |l.entries| && l.entries[e.id].tenant == e.tenant && l.entries[e.id].live
  }

  // The entry is in the state the request is for.
  predicate Ready(entry: Entry, e: Event) {
    match e
    case Update(_, _, _, _) => entry.status == Draft
    case Remove(_, _, _) => entry.status == Draft
    case Submit(_, _, _) => entry.status == Draft
    case Approve(_, _, _, _) => entry.status == Submitted
    case Reject(_, _, _, _, _) => entry.status == Submitted
    case StartTimer(_, _, _) => entry.started.None?
    case StopTimer(_, _, _, _) => entry.started.Some?
    case Create(_, _, _, _, _) => true
  }

  // Every answer, and what stays as it is: a refused request changes nothing, and an accepted one only
  // the entry it names.
  lemma Answers(l: Log, e: Event)
    requires !e.Create?
    ensures var (l', r) := Step(l, e);
            var failing := e.StopTimer? && e.at.Some? && !e.at.value.zoned;
            && (r == Forbidden <==> !Allowed(l, e))
            && (r == NotFound <==> Allowed(l, e) && !Found(l, e))
            && (r == Unprocessable <==> Allowed(l, e) && Found(l, e) && !Ready(l.entries[e.id], e))
            && (r == ServerError <==> Found(l, e) && Ready(l.entries[e.id], e) && failing)
            && (r == Ok <==> Allowed(l, e) && Found(l, e) && Ready(l.entries[e.id], e) && !failing)
            && (r != Ok ==> l' == l)
            && |l'.entries| == |l.entries|
            && forall i | 0 <= i < |l.entries| && i != e.id :: l'.entries[i] == l.entries[i]
  {
  }

  lemma CreateAnswer(l: Log, e: Event)
    requires e.Create?
    ensures var (l', r) := Step(l, e);
            && r == Ok && l'.approvals == l.approvals
            && l'.entries == l.entries
                 + [Entry(e.tenant, e.user, e.project, Draft, None, None, e.duration, e.details, true)]
  {
  }

  // An update changes the sent fields alone.
  lemma Updated(l: Log, e: Event)
    requires e.Update? && Step(l, e).1 == Ok
    ensures var a, b, p := l.entries[e.id], Step(l, e).0.entries[e.id], e.patch;
            && Step(l, e).0.approvals == l.approvals
            && b == a.(duration := b.duration, details := b.details)
            && b.duration == (if p.duration.Some? then p.duration.value else a.duration)
            && b.details.date == (if p.date.Some? then p.date.value else a.details.date)
            && b.details.task == (if p.task.Some? then p.task else a.details.task)
            && b.details.description == (if p.description.Some? then p.description else a.details.description)
            && b.details.billable == (if p.billable.Some? then p.billable.value else a.details.billable)
  {
  }

  // A removal takes the entry out of every later request.
  lemma Removed(l: Log, e: Event)
    requires e.Remove? && Step(l, e).1 == Ok
    ensures var a, b := l.entries[e.id], Step(l, e).0.entries[e.id];
            b == a.(live := false) && Step(l, e).0.approvals == l.approvals
  {
  }

  // A start records the instant; a stop records its own and the whole minutes since, at least one.
  lemma Timed(l: Log, e: Event)
    requires (e.StartTimer? || e.StopTimer?) && Step(l, e).1 == Ok
    ensures var a, b := l.entries[e.id], Step(l, e).0.entries[e.id];
            && Step(l, e).0.approvals == l.approvals
            && (e.StartTimer? ==> b == a.(started := Some(e.now)))
            && (e.StopTimer? ==>
                  var ended := if e.at.Some? then e.at.value.micros else e.now;
                  var span := ended - a.started.value;
                  && b == a.(ended := Some(ended), duration := b.duration)
                  && (span < 120_000_000 ==> b.duration == 1)
                  && (span >= 60_000_000 ==> 60_000_000 * b.duration <= span < 60_000_000 * (b.duration + 1)))
  {
    if e.StopTimer? {
      StoppedMinutes(l.entries[e.id], if e.at.Some? then e.at.value.micros else e.now,
                     Step(l, e).0.entries[e.id].duration);
    }
  }

  // A decision changes the status and adds one record of who took it, and in a rejection why.
  lemma Decided(l: Log, e: Event)
    requires (e.Submit? || e.Approve? || e.Reject?) && Step(l, e).1 == Ok
    ensures var l' := Step(l, e).0;
            var a, b := l.entries[e.id], l'.entries[e.id];
            && b == a.(status := if e.Submit? then Submitted else if e.Approve? then Approved else Rejected)
            && l'.approvals == l.approvals + [
                 Approval(e.tenant, e.id, e.user,
                          if e.Submit? then WasSubmitted else if e.Approve? then WasApproved else WasRejected,
                          if e.Reject? then e.notes else None)]
  {
  }
}
