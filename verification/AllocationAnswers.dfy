// What each allocation request is answered and what it changes, read off the rows alone.
module AllocationAnswers {
  import opened Prelude
  import opened Resources

  // A creation is refused exactly when the user's live rows whose period meets the new one add up,
  // with it, to more than 100; an open end meets everything after its start.
  lemma CreateAnswer(rows: seq<Allocation>, tenant: nat, authorized: bool, user: nat, pct: Percent, start: Date,
                     end: Option<Date>, notes: Option<string>)
    ensures var (rows', r) := Apply(rows, Create(tenant, authorized, user, pct, start, end, notes));
            var others := set i: nat | i < |rows| && rows[i].live && rows[i].tenant == tenant && rows[i].user == user
                                       && (rows[i].end.None? || start <= rows[i].end.value)
                                       && (end.None? || rows[i].start <= end.value);
            var sum := Total(rows, others) + pct;
            && (r == Forbidden <==> !authorized)
            && (r == Ok <==> authorized && sum <= 100)
            && (authorized && sum > 100 ==> r == Conflict(sum))
            && (r != Ok ==> rows' == rows)
            && (r == Ok ==> rows' == rows + [Allocation(tenant, user, pct, start, end, notes, true)])
  {
    var others := set i: nat | i < |rows| && rows[i].live && rows[i].tenant == tenant && rows[i].user == user
                               && (rows[i].end.None? || start <= rows[i].end.value)
                               && (end.None? || rows[i].start <= end.value);
    assert GuardIds(rows, tenant, user, start, end, None) == others;
  }

  // An update finds the tenant's live row. If it carries a percentage, the other live rows of the same
  // user that meet the period the row will have decide; the row itself never counts.
  lemma UpdateAnswer(rows: seq<Allocation>, tenant: nat, authorized: bool, id: nat, newPct: Option<Percent>,
                     newEnd: Option<Date>, newNotes: Option<string>)
    ensures var (rows', r) := Apply(rows, Update(tenant, authorized, id, newPct, newEnd, newNotes));
            var found := id < |rows| && rows[id].tenant == tenant && rows[id].live;
            && (r == Forbidden <==> !authorized)
            && (r == NotFound <==> authorized && !found)
            && (r != Ok ==> rows' == rows)
            && (authorized && found ==>
                  var a := rows[id];
                  var end := if newEnd.Some? then newEnd else a.end;
                  && (newPct.None? ==> r == Ok)
                  && (newPct.Some? ==>
                        var sum := Total(rows, OtherRows(rows, id, end)) + newPct.value;
                        r == if sum <= 100 then Ok else Conflict(sum)))
  {
    if authorized && id < |rows| && rows[id].tenant == tenant && rows[id].live {
      var a := rows[id];
      var end := if newEnd.Some? then newEnd else a.end;
      assert GuardIds(rows, tenant, a.user, a.start, end, Some(id)) == OtherRows(rows, id, end);
    }
  }

  // The rows of the same tenant and user, other than row `id`, that meet its start and the given end.
  function OtherRows(rows: seq<Allocation>, id: nat, end: Option<Date>): set<nat>
    requires id < |rows|
  {
    set i: nat | i < |rows| && i != id && rows[i].live && rows[i].tenant == rows[id].tenant
                 && rows[i].user == rows[id].user
                 && (rows[i].end.None? || rows[id].start <= rows[i].end.value)
                 && (end.None? || rows[i].start <= end.value)
  }

  // An accepted update changes that row alone, and of it the sent columns alone.
  lemma UpdateChanges(rows: seq<Allocation>, q: Request)
    requires q.Update? && Apply(rows, q).1 == Ok
    ensures var rows' := Apply(rows, q).0;
            && q.id < |rows| == |rows'|
            && (forall i | 0 <= i < |rows| && i != q.id :: rows'[i] == rows[i])
            && var a, b := rows[q.id], rows'[q.id];
               && b.tenant == a.tenant && b.user == a.user && b.start == a.start && b.live == a.live == true
               && b.pct == (if q.newPct.Some? then q.newPct.value else a.pct)
               && b.end == (if q.newEnd.Some? then q.newEnd else a.end)
               && b.notes == (if q.newNotes.Some? then q.newNotes else a.notes)
  {
  }

  // A deletion takes the tenant's live row out of every later decision and touches nothing else.
  lemma DeleteAnswer(rows: seq<Allocation>, tenant: nat, authorized: bool, id: nat)
    ensures var (rows', r) := Apply(rows, Delete(tenant, authorized, id));
            var found := id < |rows| && rows[id].tenant == tenant && rows[id].live;
            && (r == Forbidden <==> !authorized)
            && (r == NotFound <==> authorized && !found)
            && (r == Ok <==> authorized && found)
            && (r != Ok ==> rows' == rows)
            && (r == Ok ==>
                  && |rows'| == |rows| && !rows'[id].live && rows'[id] == rows[id].(live := rows'[id].live)
                  && forall i | 0 <= i < |rows| && i != id :: rows'[i] == rows[i])
  {
  }

  // Deleting a row makes room: the user's load falls by its percentage on the days it covers, and no
  // other load changes.
  lemma DeletionFreesItsDays(rows: seq<Allocation>, tenant: nat, id: nat, user: nat, day: Date)
    requires id < |rows| && rows[id].tenant == tenant && rows[id].live
    ensures var a, rows' := rows[id], Apply(rows, Delete(tenant, true, id)).0;
            DayLoad(rows', tenant, user, day) ==
              DayLoad(rows, tenant, user, day)
              - if a.user == user && a.start <= day && (a.end.None? || day <= a.end.value) then a.pct else 0
  {
    var a, rows' := rows[id], Apply(rows, Delete(tenant, true, id)).0;
    var ids, ids' := DayIds(rows, tenant, user, day), DayIds(rows', tenant, user, day);
    if id in ids {
      TotalWithout(rows, ids, id, |rows|);
    } else {
      assert ids - {id} == ids;
    }
    assert ids' == ids - {id};
    TotalAtMost(rows, ids', rows', ids', |rows|);
    TotalAtMost(rows', ids', rows, ids', |rows|);
  }

  // A total is what its rows ask for, each counted once.
  lemma TotalAddsUp(rows: seq<Allocation>, ids: set<nat>, k: nat)
    requires k < |rows| && k !in ids
    ensures Total(rows, {}) == 0
    ensures Total(rows, ids + {k}) == Total(rows, ids) + rows[k].pct
  {
    EmptyTotal(rows, |rows|);
    TotalWithout(rows, ids + {k}, k, |rows|);
    assert ids + {k} - {k} == ids;
  }
}
