// Allocations of people to projects: the over-allocation guard, the handlers around it,
// what serial runs of them keep, and what is left when check and commit interleave.
module Resources {
  import opened Prelude

  // Dates are proleptic ordinals; 9999-12-31, the guard's sentinel, is the last one.
  const MAX_DATE: int := 3652059
  type Date = d: int | 1 <= d <= MAX_DATE witness 1
  type Percent = p: int | 0 <= p <= 100

  // One row of the allocations table. Rows are only ever appended or changed in place, so
  // a row's position is its identifier. `live` is "deleted_at is null".
  datatype Allocation = Allocation(
    tenant: nat, user: nat, pct: Percent, start: Date, end: Option<Date>, notes: Option<string>, live: bool)

  datatype Request =
    | Create(tenant: nat, authorized: bool, user: nat, pct: Percent, start: Date, end: Option<Date>,
             notes: Option<string>)
    | Update(tenant: nat, authorized: bool, id: nat, newPct: Option<Percent>, newEnd: Option<Date>,
             newNotes: Option<string>)
    | Delete(tenant: nat, authorized: bool, id: nat)

  datatype Outcome = Ok | Forbidden | NotFound | Conflict(total: int)

  // ---------- Totals over a chosen set of rows ----------

  function TotalUpTo(rows: seq<Allocation>, ids: set<nat>, n: nat): nat
    requires n <= |rows|
  {
    if n == 0 then 0
    else TotalUpTo(rows, ids, n - 1) + if n - 1 in ids then rows[n - 1].pct else 0
  }

  function Total(rows: seq<Allocation>, ids: set<nat>): nat {
    TotalUpTo(rows, ids, |rows|)
  }

  lemma {:induction false} TotalAtMost(rows: seq<Allocation>, ids: set<nat>, rows': seq<Allocation>, ids': set<nat>,
                                       n: nat)
    requires n <= |rows| && n <= |rows'|
    requires forall i: nat | i < n && i in ids :: i in ids' && rows[i].pct <= rows'[i].pct
    ensures TotalUpTo(rows, ids, n) <= TotalUpTo(rows', ids', n)
  {
    if n > 0 {
      TotalAtMost(rows, ids, rows', ids', n - 1);
    }
  }

  lemma {:induction false} TotalWithout(rows: seq<Allocation>, ids: set<nat>, k: nat, n: nat)
    requires n <= |rows| && k in ids && k < n
    ensures TotalUpTo(rows, ids, n) == TotalUpTo(rows, ids - {k}, n) + rows[k].pct
  {
    if k < n - 1 {
      TotalWithout(rows, ids, k, n - 1);
    } else {
      TotalAtMost(rows, ids, rows, ids - {k}, k);
      TotalAtMost(rows, ids - {k}, rows, ids, k);
    }
  }

  lemma {:induction false} EmptyTotal(rows: seq<Allocation>, n: nat)
    requires n <= |rows|
    ensures TotalUpTo(rows, {}, n) == 0
  {
    if n > 0 {
      EmptyTotal(rows, n - 1);
    }
  }

  // ---------- Days and the guard ----------

  function Last(end: Option<Date>): Date {
    if end.Some? then end.value else MAX_DATE
  }

  predicate Covers(a: Allocation, day: Date) {
    a.start <= day <= Last(a.end)
  }

  // What a row asks of one user on one day, and the user's load on that day.
  predicate Loads(a: Allocation, tenant: nat, user: nat, day: Date) {
    a.live && a.tenant == tenant && a.user == user && Covers(a, day)
  }

  function DayIds(rows: seq<Allocation>, tenant: nat, user: nat, day: Date): set<nat> {
    set i: nat | i < |rows| && Loads(rows[i], tenant, user, day)
  }

  function DayLoad(rows: seq<Allocation>, tenant: nat, user: nat, day: Date): nat {
    Total(rows, DayIds(rows, tenant, user, day))
  }

  ghost predicate WithinCapacity(rows: seq<Allocation>) {
    forall tenant: nat, user: nat, day: Date :: DayLoad(rows, tenant, user, day) <= 100
  }

  // The rows the guard's query selects.
  predicate Selected(a: Allocation, tenant: nat, user: nat, start: Date, end: Option<Date>) {
    && a.user == user
    && a.tenant == tenant
    && a.live
    && (a.end.None? || a.end.value >= start)
    && a.start <= Last(end)
  }

  function GuardIds(rows: seq<Allocation>, tenant: nat, user: nat, start: Date, end: Option<Date>,
                    exclude: Option<nat>): set<nat>
  {
    set i: nat | i < |rows| && Selected(rows[i], tenant, user, start, end) && exclude != Some(i)
  }

  function GuardTotal(rows: seq<Allocation>, tenant: nat, user: nat, start: Date, end: Option<Date>, pct: Percent,
                      exclude: Option<nat>): nat
  {
    Total(rows, GuardIds(rows, tenant, user, start, end, exclude)) + pct
  }

  // ---------- Handlers as functions of the table ----------

  predicate Visible(rows: seq<Allocation>, tenant: nat, id: nat) {
    id < |rows| && rows[id].tenant == tenant && rows[id].live
  }

  function Patched(a: Allocation, newPct: Option<Percent>, newEnd: Option<Date>, newNotes: Option<string>): Allocation {
    a.(pct := if newPct.Some? then newPct.value else a.pct,
       end := if newEnd.Some? then newEnd else a.end,
       notes := if newNotes.Some? then newNotes else a.notes)
  }

  function Apply(rows: seq<Allocation>, q: Request): (seq<Allocation>, Outcome) {
    if !q.authorized then (rows, Forbidden)
    else match q
      case Create(tenant, _, user, pct, start, end, notes) =>
        var total := GuardTotal(rows, tenant, user, start, end, pct, None);
        if total > 100 then (rows, Conflict(total))
        else (rows + [Allocation(tenant, user, pct, start, end, notes, true)], Ok)
      case Update(tenant, _, id, newPct, newEnd, newNotes) =>
        if !Visible(rows, tenant, id) then (rows, NotFound)
        else
          var patched := Patched(rows[id], newPct, newEnd, newNotes);
          var total := GuardTotal(rows, tenant, patched.user, patched.start, patched.end, patched.pct, Some(id));
          if newPct.Some? && total > 100 then (rows, Conflict(total))
          else (rows[id := patched], Ok)
      case Delete(tenant, _, id) =>
        if !Visible(rows, tenant, id) then (rows, NotFound)
        else (rows[id := rows[id].(live := false)], Ok)
  }

  function Run(rows: seq<Allocation>, qs: seq<Request>): seq<Allocation>
    decreases |qs|
  {
    if qs == [] then rows else Run(Apply(rows, qs[0]).0, qs[1..])
  }

  // ---------- The service ----------

  class AllocationService {
    var rows: seq<Allocation>

    constructor ()
      ensures rows == []
    {
      rows := [];
    }

    method CheckOverAllocation(tenant: nat, user: nat, start: Date, end: Option<Date>, pct: Percent,
                               exclude: Option<nat>)
      returns (r: Outcome)
      ensures var total := GuardTotal(rows, tenant, user, start, end, pct, exclude);
              r == if total > 100 then Conflict(total) else Ok
    {
      var until := if end.Some? then end.value else MAX_DATE;
      ghost var ids := GuardIds(rows, tenant, user, start, end, exclude);
      var total := 0;
      for i := 0 to |rows|
        invariant total == TotalUpTo(rows, ids, i)
      {
        var a := rows[i];
        if a.user == user && a.tenant == tenant && a.live && (a.end.None? || a.end.value >= start)
           && a.start <= until && exclude != Some(i)
        {
          total := total + a.pct;
        }
      }
      total := total + pct;
      if total > 100 {
        return Conflict(total);
      }
      return Ok;
    }

    method CreateAllocation(tenant: nat, authorized: bool, user: nat, pct: Percent, start: Date, end: Option<Date>,
                            notes: Option<string>)
      returns (r: Outcome)
      modifies this
      ensures (rows, r) == Apply(old(rows), Create(tenant, authorized, user, pct, start, end, notes))
    {
      if !authorized {
        return Forbidden;
      }
      r := CheckOverAllocation(tenant, user, start, end, pct, None);
      if r != Ok {
        return;
      }
      var alloc := Allocation(tenant, user, pct, start, end, notes, true);
      rows := rows + [alloc];
    }

    method UpdateAllocation(tenant: nat, authorized: bool, id: nat, newPct: Option<Percent>, newEnd: Option<Date>,
                            newNotes: Option<string>)
      returns (r: Outcome)
      modifies this
      ensures (rows, r) == Apply(old(rows), Update(tenant, authorized, id, newPct, newEnd, newNotes))
    {
      if !authorized {
        return Forbidden;
      }
      if !(id < |rows| && rows[id].tenant == tenant && rows[id].live) {
        return NotFound;
      }
      var alloc := rows[id];
      if newPct.Some? {
        var until := if newEnd.Some? then newEnd else alloc.end;
        r := CheckOverAllocation(tenant, alloc.user, alloc.start, until, newPct.value, Some(id));
        if r != Ok {
          return;
        }
      }
      if newPct.Some? {
        alloc := alloc.(pct := newPct.value);
      }
      if newEnd.Some? {
        alloc := alloc.(end := newEnd);
      }
      if newNotes.Some? {
        alloc := alloc.(notes := newNotes);
      }
      rows := rows[id := alloc];
      return Ok;
    }

    method DeleteAllocation(tenant: nat, authorized: bool, id: nat) returns (r: Outcome)
      modifies this
      ensures (rows, r) == Apply(old(rows), Delete(tenant, authorized, id))
    {
      if !authorized {
        return Forbidden;
      }
      if !(id < |rows| && rows[id].tenant == tenant && rows[id].live) {
        return NotFound;
      }
      rows := rows[id := rows[id].(live := false)];
      return Ok;
    }
  }

  // ---------- The guard is sound: serial runs stay within capacity ----------

  // A row that passes the guard against the rest of the table can take its place there.
  lemma GuardedRowFits(rows: seq<Allocation>, id: nat, a: Allocation, rows': seq<Allocation>,
                       tenant: nat, user: nat, day: Date)
    requires id < |rows'| && rows'[id] == a && |rows| <= |rows'| <= |rows| + 1
    requires |rows| < |rows'| ==> id == |rows|
    requires forall i: nat | i < |rows| && i != id :: rows'[i] == rows[i]
    requires Loads(a, tenant, user, day)
    requires GuardTotal(rows, tenant, user, a.start, a.end, a.pct, Some(id)) <= 100
    ensures DayLoad(rows', tenant, user, day) <= 100
  {
    var ids' := DayIds(rows', tenant, user, day);
    var guard := GuardIds(rows, tenant, user, a.start, a.end, Some(id));
    TotalWithout(rows', ids', id, |rows'|);
    TotalAtMost(rows', ids' - {id}, rows, guard, |rows|);
  }

  // The rows that load a day only lose by a change that adds none of them and raises no percentage.
  lemma LoadShrinks(rows: seq<Allocation>, rows': seq<Allocation>, tenant: nat, user: nat, day: Date)
    requires |rows'| == |rows|
    requires forall i: nat | i < |rows| && Loads(rows'[i], tenant, user, day) ::
               Loads(rows[i], tenant, user, day) && rows'[i].pct <= rows[i].pct
    ensures DayLoad(rows', tenant, user, day) <= DayLoad(rows, tenant, user, day)
  {
    TotalAtMost(rows', DayIds(rows', tenant, user, day), rows, DayIds(rows, tenant, user, day), |rows|);
  }

  lemma CreateKeepsCapacity(rows: seq<Allocation>, q: Request)
    requires WithinCapacity(rows) && q.Create?
    ensures WithinCapacity(Apply(rows, q).0)
  {
    var rows' := Apply(rows, q).0;
    if rows' != rows {
      var n := |rows|;
      var a := rows'[n];
      assert GuardIds(rows, q.tenant, q.user, q.start, q.end, Some(n))
          == GuardIds(rows, q.tenant, q.user, q.start, q.end, None);
      forall tenant: nat, user: nat, day: Date
        ensures DayLoad(rows', tenant, user, day) <= 100
      {
        if Loads(a, tenant, user, day) {
          GuardedRowFits(rows, n, a, rows', tenant, user, day);
        } else {
          var ids' := DayIds(rows', tenant, user, day);
          TotalAtMost(rows', ids', rows, DayIds(rows, tenant, user, day), n);
          assert DayLoad(rows, tenant, user, day) <= 100;
        }
      }
    }
  }

  // The updates that cannot break capacity: those that carry a percentage, and so are checked, and
  // those that ask for no new day, or ask for nothing on it.
  predicate UpdateIsSafe(a: Allocation, newPct: Option<Percent>, newEnd: Option<Date>) {
    newPct.Some? || newEnd.None? || newEnd.value <= Last(a.end) || newEnd.value < a.start || a.pct == 0
  }

  lemma UpdateKeepsCapacity(rows: seq<Allocation>, q: Request)
    requires WithinCapacity(rows) && q.Update?
    requires Visible(rows, q.tenant, q.id) ==> UpdateIsSafe(rows[q.id], q.newPct, q.newEnd)
    ensures WithinCapacity(Apply(rows, q).0)
  {
    var rows' := Apply(rows, q).0;
    if rows' != rows {
      var a, b := rows[q.id], rows'[q.id];
      forall tenant: nat, user: nat, day: Date
        ensures DayLoad(rows', tenant, user, day) <= 100
      {
        assert DayLoad(rows, tenant, user, day) <= 100;
        if Loads(b, tenant, user, day) && q.newPct.Some? {
          GuardedRowFits(rows, q.id, b, rows', tenant, user, day);
        } else if Loads(b, tenant, user, day) && a.pct == 0 {
          var ids' := DayIds(rows', tenant, user, day);
          TotalWithout(rows', ids', q.id, |rows'|);
          TotalAtMost(rows', ids' - {q.id}, rows, DayIds(rows, tenant, user, day), |rows|);
        } else {
          LoadShrinks(rows, rows', tenant, user, day);
        }
      }
    }
  }

  lemma DeleteKeepsCapacity(rows: seq<Allocation>, q: Request)
    requires WithinCapacity(rows) && q.Delete?
    ensures WithinCapacity(Apply(rows, q).0)
  {
    forall tenant: nat, user: nat, day: Date
      ensures DayLoad(Apply(rows, q).0, tenant, user, day) <= 100
    {
      assert DayLoad(rows, tenant, user, day) <= 100;
      LoadShrinks(rows, Apply(rows, q).0, tenant, user, day);
    }
  }

  // Every update of the run is safe for the row it finds.
  predicate SafeRun(rows: seq<Allocation>, qs: seq<Request>)
    decreases |qs|
  {
    qs == [] || (
      var q := qs[0];
      && (q.Update? && Visible(rows, q.tenant, q.id) ==> UpdateIsSafe(rows[q.id], q.newPct, q.newEnd))
      && SafeRun(Apply(rows, q).0, qs[1..]))
  }

  lemma {:induction false} SerialRunsKeepCapacity(rows: seq<Allocation>, qs: seq<Request>)
    requires WithinCapacity(rows) && SafeRun(rows, qs)
    ensures WithinCapacity(Run(rows, qs))
    decreases |qs|
  {
    if qs != [] {
      var q := qs[0];
      match q {
        case Create(_, _, _, _, _, _, _) => CreateKeepsCapacity(rows, q);
        case Update(_, _, _, _, _, _) => UpdateKeepsCapacity(rows, q);
        case Delete(_, _, _) => DeleteKeepsCapacity(rows, q);
      }
      SerialRunsKeepCapacity(Apply(rows, q).0, qs[1..]);
    }
  }

  lemma EmptyTableFits()
    ensures WithinCapacity([])
  {
    forall tenant: nat, user: nat, day: Date ensures DayLoad([], tenant, user, day) <= 100 {
    }
  }

  // ---------- Exactly which updates are safe ----------

  ghost predicate KeepsCapacity(rows: seq<Allocation>, q: Request) {
    WithinCapacity(rows) ==> WithinCapacity(Apply(rows, q).0)
  }

  // An unsafe update breaks some table: the row beside a full day at its new end.
  lemma UnsafeUpdateBreaks(a: Allocation, newPct: Option<Percent>, newEnd: Option<Date>, newNotes: Option<string>)
    requires a.live && !UpdateIsSafe(a, newPct, newEnd)
    ensures var full := Allocation(a.tenant, a.user, 100, newEnd.value, newEnd, None, true);
            !KeepsCapacity([a, full], Update(a.tenant, true, 0, newPct, newEnd, newNotes))
  {
    var day := newEnd.value;
    var full := Allocation(a.tenant, a.user, 100, day, newEnd, None, true);
    var rows := [a, full];
    forall t: nat, u: nat, d: Date ensures DayLoad(rows, t, u, d) <= 100 {
      var ids := DayIds(rows, t, u, d);
      assert TotalUpTo(rows, ids, 1) == if 0 in ids then a.pct else 0;
      assert !(0 in ids && 1 in ids);
    }
    var q := Update(a.tenant, true, 0, newPct, newEnd, newNotes);
    var rows' := Apply(rows, q).0;
    var ids' := DayIds(rows', a.tenant, a.user, day);
    assert 0 in ids' && 1 in ids';
    assert TotalUpTo(rows', ids', 1) == a.pct;
    assert DayLoad(rows', a.tenant, a.user, day) == a.pct + 100;
  }

  lemma RunOfThree(rows: seq<Allocation>, p: Request, q: Request, r: Request)
    ensures Run(rows, [p, q]) == Apply(Apply(rows, p).0, q).0
    ensures Run(rows, [p, q, r]) == Apply(Run(rows, [p, q]), r).0
  {
    var rows1, rows2 := Apply(rows, p).0, Apply(Apply(rows, p).0, q).0;
    assert [p, q][1..] == [q] && [q][1..] == [] && [p, q, r][1..] == [q, r] && [q, r][1..] == [r] && [r][1..] == [];
    assert Run(rows1, [q]) == Run(rows2, []) == rows2;
    assert Run(rows2, [r]) == Apply(rows2, r).0;
    assert Run(rows1, [q, r]) == Run(rows2, [r]);
  }

  // A creation next to rows the guard does not select.
  lemma CreateFits(rows: seq<Allocation>, c: Allocation)
    requires c.live && GuardIds(rows, c.tenant, c.user, c.start, c.end, None) == {}
    ensures Apply(rows, Create(c.tenant, true, c.user, c.pct, c.start, c.end, c.notes)).0 == rows + [c]
  {
    EmptyTotal(rows, |rows|);
  }

  // The failing table is reached from no rows at all: two creations that fit, and the update.
  lemma UnsafeUpdateOverfillsARun(a: Allocation, newEnd: Date, newNotes: Option<string>)
    requires a.live && !UpdateIsSafe(a, None, Some(newEnd))
    ensures var first := Create(a.tenant, true, a.user, a.pct, a.start, a.end, a.notes);
            var second := Create(a.tenant, true, a.user, 100, newEnd, Some(newEnd), None);
            var update := Update(a.tenant, true, 0, None, Some(newEnd), newNotes);
            && WithinCapacity(Run([], [first, second]))
            && !WithinCapacity(Run([], [first, second, update]))
  {
    var full := Allocation(a.tenant, a.user, 100, newEnd, Some(newEnd), None, true);
    CreateFits([], a);
    CreateFits([a], full);
    RunOfThree([], Create(a.tenant, true, a.user, a.pct, a.start, a.end, a.notes),
               Create(a.tenant, true, a.user, 100, newEnd, Some(newEnd), None),
               Update(a.tenant, true, 0, None, Some(newEnd), newNotes));
    assert [] + [a] == [a] && [a] + [full] == [a, full];
    UnsafeUpdateBreaks(a, None, Some(newEnd), newNotes);
  }

  lemma UpdateSafetyIsExact(a: Allocation, newPct: Option<Percent>, newEnd: Option<Date>, newNotes: Option<string>)
    requires a.live
    ensures UpdateIsSafe(a, newPct, newEnd) <==>
            forall rows: seq<Allocation>, id: nat | id < |rows| && rows[id] == a ::
              KeepsCapacity(rows, Update(a.tenant, true, id, newPct, newEnd, newNotes))
  {
    if UpdateIsSafe(a, newPct, newEnd) {
      forall rows: seq<Allocation>, id: nat | id < |rows| && rows[id] == a
        ensures KeepsCapacity(rows, Update(a.tenant, true, id, newPct, newEnd, newNotes))
      {
        if WithinCapacity(rows) {
          UpdateKeepsCapacity(rows, Update(a.tenant, true, id, newPct, newEnd, newNotes));
        }
      }
    } else {
      var rows := [a, Allocation(a.tenant, a.user, 100, newEnd.value, newEnd, None, true)];
      UnsafeUpdateBreaks(a, newPct, newEnd, newNotes);
      assert rows[0] == a;
    }
  }

  // ---------- Sets of rows that pairwise overlap ----------

  // The guard's own test, between two rows; it needs no special case for open ends.
  predicate Overlaps(a: Allocation, b: Allocation) {
    Last(a.end) >= b.start && a.start <= Last(b.end)
  }

  ghost predicate Clique(rows: seq<Allocation>, ids: set<nat>, tenant: nat, user: nat) {
    && (forall i | i in ids :: i < |rows| && rows[i].live && rows[i].tenant == tenant && rows[i].user == user)
    && (forall i, j | i in ids && j in ids :: Overlaps(rows[i], rows[j]))
  }

  lemma {:induction false} LatestStart(rows: seq<Allocation>, ids: set<nat>) returns (k: nat)
    requires ids != {} && forall i | i in ids :: i < |rows|
    ensures k in ids && forall i | i in ids :: rows[i].start <= rows[k].start
  {
    var i :| i in ids;
    k := i;
    if ids != {i} {
      var rest := ids - {i};
      assert ids == rest + {i};
      var j := LatestStart(rows, rest);
      k := if rows[i].start <= rows[j].start then j else i;
    }
  }

  // One-dimensional Helly: rows that overlap pairwise all cover one day, the latest start among them.
  lemma CliqueSharesADay(rows: seq<Allocation>, ids: set<nat>, tenant: nat, user: nat) returns (day: Date)
    requires ids != {} && Clique(rows, ids, tenant, user)
    ensures ids <= DayIds(rows, tenant, user, day)
    ensures Total(rows, ids) <= DayLoad(rows, tenant, user, day)
  {
    var k := LatestStart(rows, ids);
    day := rows[k].start;
    forall i | i in ids ensures Loads(rows[i], tenant, user, day) {
      assert Overlaps(rows[i], rows[k]);
    }
    TotalAtMost(rows, ids, rows, DayIds(rows, tenant, user, day), |rows|);
  }

  lemma OverlappingSetsFit(qs: seq<Request>, ids: set<nat>, tenant: nat, user: nat)
    requires SafeRun([], qs) && Clique(Run([], qs), ids, tenant, user)
    ensures Total(Run([], qs), ids) <= 100
  {
    var rows := Run([], qs);
    if ids == {} {
      EmptyTotal(rows, |rows|);
    } else {
      EmptyTableFits();
      SerialRunsKeepCapacity([], qs);
      var day := CliqueSharesADay(rows, ids, tenant, user);
      assert DayLoad(rows, tenant, user, day) <= 100;
    }
  }

  // A row that overlaps every row of a clique shares a day with all of them.
  lemma RefusedCliqueOverloads(rows: seq<Allocation>, c: Allocation, ids: set<nat>) returns (day: Date)
    requires Clique(rows, ids, c.tenant, c.user) && c.live && c.start <= Last(c.end)
    requires forall i | i in ids :: Overlaps(rows[i], c)
    requires Total(rows, ids) + c.pct > 100
    ensures DayLoad(rows + [c], c.tenant, c.user, day) > 100
  {
    var n, rows', all := |rows|, rows + [c], ids + {|rows|};
    assert all - {n} == ids;
    day := CliqueSharesADay(rows', all, c.tenant, c.user);
    TotalWithout(rows', all, n, n + 1);
    TotalAtMost(rows, ids, rows', ids, n);
  }

  // The guard is conservative in general, and exact when what it selects overlaps pairwise.
  lemma GuardIsExactOnCliques(rows: seq<Allocation>, c: Allocation)
    requires WithinCapacity(rows) && c.live && c.start <= Last(c.end)
    requires Clique(rows, GuardIds(rows, c.tenant, c.user, c.start, c.end, None), c.tenant, c.user)
    ensures GuardTotal(rows, c.tenant, c.user, c.start, c.end, c.pct, None) <= 100 <==> WithinCapacity(rows + [c])
  {
    var q := Create(c.tenant, true, c.user, c.pct, c.start, c.end, c.notes);
    var ids := GuardIds(rows, c.tenant, c.user, c.start, c.end, None);
    if GuardTotal(rows, c.tenant, c.user, c.start, c.end, c.pct, None) <= 100 {
      CreateKeepsCapacity(rows, q);
      assert Apply(rows, q).0 == rows + [c];
    } else {
      var day := RefusedCliqueOverloads(rows, c, ids);
      assert DayLoad(rows + [c], c.tenant, c.user, day) > 100;
    }
  }

  lemma GuardRejectsAFittingRow()
    ensures var rows := [Allocation(0, 0, 60, 1, Some(10), None, true), Allocation(0, 0, 60, 20, Some(30), None, true)];
            var q := Create(0, true, 0, 40, 5, Some(25), None);
            Apply(rows, q) == (rows, Conflict(160)) &&
            WithinCapacity(rows + [Allocation(0, 0, 40, 5, Some(25), None, true)])
  {
    var rows := [Allocation(0, 0, 60, 1, Some(10), None, true), Allocation(0, 0, 60, 20, Some(30), None, true)];
    var ids := GuardIds(rows, 0, 0, 5, Some(25), None);
    assert ids == {0, 1};
    assert TotalUpTo(rows, ids, 1) == 60;
    var rows' := rows + [Allocation(0, 0, 40, 5, Some(25), None, true)];
    forall t: nat, u: nat, d: Date ensures DayLoad(rows', t, u, d) <= 100 {
      var on := DayIds(rows', t, u, d);
      assert TotalUpTo(rows', on, 1) == if 0 in on then 60 else 0;
      assert TotalUpTo(rows', on, 2) == TotalUpTo(rows', on, 1) + if 1 in on then 60 else 0;
      assert !(0 in on && 1 in on);
    }
  }
}
