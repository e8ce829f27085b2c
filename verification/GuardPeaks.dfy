// When the over-allocation guard is right: the days on which a new load can peak, and exactly which
// requests are refused although they fit.
module GuardPeaks {
  import opened Prelude
  import opened Resources

  // ---------- The row a request asks for ----------

  // The requests the guard checks: creations, and updates of a visible row that carry a percentage.
  predicate Guarded(rows: seq<Allocation>, q: Request) {
    q.authorized && (q.Create? || (q.Update? && q.newPct.Some? && Visible(rows, q.tenant, q.id)))
  }

  function Place(rows: seq<Allocation>, q: Request): nat
    requires Guarded(rows, q)
  {
    if q.Create? then |rows| else q.id
  }

  function Wanted(rows: seq<Allocation>, q: Request): Allocation
    requires Guarded(rows, q)
  {
    if q.Create? then Allocation(q.tenant, q.user, q.pct, q.start, q.end, q.notes, true)
    else Patched(rows[q.id], q.newPct, q.newEnd, q.newNotes)
  }

  // The table with the row in its place.
  function Placed(rows: seq<Allocation>, id: nat, c: Allocation): seq<Allocation>
    requires id <= |rows|
  {
    if id == |rows| then rows + [c] else rows[id := c]
  }

  // ---------- Peaks ----------

  // The load of c's user on a day, the row at c's place left out.
  function OtherLoad(rows: seq<Allocation>, id: nat, c: Allocation, day: Date): nat {
    Total(rows, DayIds(rows, c.tenant, c.user, day) - {id})
  }

  // The days c covers on which it or a row the guard selects starts.
  function PeakDays(rows: seq<Allocation>, id: nat, c: Allocation): set<Date> {
    (if Covers(c, c.start) then {c.start} else {})
    + set i | i in GuardIds(rows, c.tenant, c.user, c.start, c.end, Some(id)) && Covers(c, rows[i].start) ::
        rows[i].start
  }

  ghost predicate PeaksFit(rows: seq<Allocation>, id: nat, c: Allocation) {
    forall day | day in PeakDays(rows, id, c) :: OtherLoad(rows, id, c, day) + c.pct <= 100
  }

  // A load peaks where something starts.
  lemma PeakBefore(rows: seq<Allocation>, id: nat, c: Allocation, day: Date) returns (peak: Date)
    requires Covers(c, day)
    ensures peak in PeakDays(rows, id, c)
    ensures OtherLoad(rows, id, c, day) <= OtherLoad(rows, id, c, peak)
  {
    var ids := DayIds(rows, c.tenant, c.user, day) - {id};
    peak := c.start;
    if ids != {} {
      var k := LatestStart(rows, ids);
      if c.start < rows[k].start {
        peak := rows[k].start;
        assert k in GuardIds(rows, c.tenant, c.user, c.start, c.end, Some(id));
      }
    }
    TotalAtMost(rows, ids, rows, DayIds(rows, c.tenant, c.user, peak) - {id}, |rows|);
  }

  lemma PlacedLoad(rows: seq<Allocation>, id: nat, c: Allocation, tenant: nat, user: nat, day: Date)
    requires id <= |rows|
    ensures DayLoad(Placed(rows, id, c), tenant, user, day)
         == Total(rows, DayIds(rows, tenant, user, day) - {id}) + if Loads(c, tenant, user, day) then c.pct else 0
  {
    var rows' := Placed(rows, id, c);
    var ids, ids' := DayIds(rows, tenant, user, day) - {id}, DayIds(rows', tenant, user, day);
    if id in ids' {
      TotalWithout(rows', ids', id, |rows'|);
    }
    SameTotal(rows, ids, rows', ids' - {id}, |rows|);
    assert id in ids' || ids' - {id} == ids';
    assert |rows'| == |rows| || (id == |rows| && |rows'| == id + 1);
  }

  lemma SameTotal(rows: seq<Allocation>, ids: set<nat>, rows': seq<Allocation>, ids': set<nat>, n: nat)
    requires n <= |rows| && n <= |rows'|
    requires forall i: nat | i < n :: (i in ids <==> i in ids') && (i in ids ==> rows[i].pct == rows'[i].pct)
    ensures TotalUpTo(rows, ids, n) == TotalUpTo(rows', ids', n)
  {
    TotalAtMost(rows, ids, rows', ids', n);
    TotalAtMost(rows', ids', rows, ids, n);
  }

  // A row fits a table if and only if it fits on the days where the load can peak.
  lemma FitsIffPeaksFit(rows: seq<Allocation>, id: nat, c: Allocation)
    requires WithinCapacity(rows) && id <= |rows| && c.live
    ensures WithinCapacity(Placed(rows, id, c)) <==> PeaksFit(rows, id, c)
  {
    var rows' := Placed(rows, id, c);
    if PeaksFit(rows, id, c) {
      forall tenant: nat, user: nat, day: Date ensures DayLoad(rows', tenant, user, day) <= 100 {
        PlacedLoad(rows, id, c, tenant, user, day);
        if Loads(c, tenant, user, day) {
          var peak := PeakBefore(rows, id, c, day);
        } else {
          OthersFit(rows, id, tenant, user, day);
        }
      }
    }
    if WithinCapacity(rows') {
      forall day | day in PeakDays(rows, id, c) ensures OtherLoad(rows, id, c, day) + c.pct <= 100 {
        PlacedLoad(rows, id, c, c.tenant, c.user, day);
        assert DayLoad(rows', c.tenant, c.user, day) <= 100;
      }
    }
  }

  lemma OthersFit(rows: seq<Allocation>, id: nat, tenant: nat, user: nat, day: Date)
    requires WithinCapacity(rows)
    ensures Total(rows, DayIds(rows, tenant, user, day) - {id}) <= 100
  {
    var ids := DayIds(rows, tenant, user, day);
    TotalAtMost(rows, ids - {id}, rows, ids, |rows|);
    assert DayLoad(rows, tenant, user, day) <= 100;
  }

  // ---------- Exactly when the guard is wrong ----------

  // What the guard adds up for a request.
  function Asked(rows: seq<Allocation>, q: Request): nat
    requires Guarded(rows, q)
  {
    var c := Wanted(rows, q);
    GuardTotal(rows, c.tenant, c.user, c.start, c.end, c.pct, Some(Place(rows, q)))
  }

  lemma GuardDecides(rows: seq<Allocation>, q: Request)
    requires Guarded(rows, q)
    ensures Apply(rows, q) == if Asked(rows, q) > 100 then (rows, Conflict(Asked(rows, q)))
                              else (Placed(rows, Place(rows, q), Wanted(rows, q)), Ok)
  {
    if q.Create? {
      assert GuardIds(rows, q.tenant, q.user, q.start, q.end, Some(|rows|))
          == GuardIds(rows, q.tenant, q.user, q.start, q.end, None);
    }
  }

  // The guard never accepts a row that does not fit, and it refuses one that fits exactly when the
  // rows it selects add up to more than 100 although no peak does.
  lemma GuardIsWrongIff(rows: seq<Allocation>, q: Request)
    requires WithinCapacity(rows) && Guarded(rows, q)
    ensures var (id, c) := (Place(rows, q), Wanted(rows, q));
            var fits := WithinCapacity(Placed(rows, id, c));
            && (Apply(rows, q).1 == Ok ==> fits)
            && (Apply(rows, q).1 != Ok && fits <==> Asked(rows, q) > 100 && PeaksFit(rows, id, c))
  {
    GuardDecides(rows, q);
    FitsIffPeaksFit(rows, Place(rows, q), Wanted(rows, q));
    if Apply(rows, q).1 == Ok {
      if q.Create? {
        CreateKeepsCapacity(rows, q);
      } else {
        UpdateKeepsCapacity(rows, q);
      }
    }
  }
}
