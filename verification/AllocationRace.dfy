// Creating an allocation when the check and the commit are separate steps, so that other
// requests run in between. A user's load is then bounded by the number of requests in flight.
module AllocationRace {
  import opened Prelude
  import opened Resources

  // A request in flight is the row it will insert; it stops being `live` when it is over.
  datatype Pool = Pool(rows: seq<Allocation>, requests: seq<Allocation>)

  datatype Event =
    | Check(tenant: nat, user: nat, pct: Percent, start: Date, end: Option<Date>)
    | Commit(request: nat)
    | Abort(request: nat)
    | Remove(tenant: nat, id: nat)

  function Step(p: Pool, e: Event): Pool {
    match e
    case Check(tenant, user, pct, start, end) =>
      if GuardTotal(p.rows, tenant, user, start, end, pct, None) > 100 then p
      else p.(requests := p.requests + [Allocation(tenant, user, pct, start, end, None, true)])
    case Commit(r) =>
      if r < |p.requests| && p.requests[r].live
      then Pool(p.rows + [p.requests[r]], p.requests[r := p.requests[r].(live := false)])
      else p
    case Abort(r) =>
      if r < |p.requests| then p.(requests := p.requests[r := p.requests[r].(live := false)]) else p
    case Remove(tenant, id) =>
      p.(rows := Apply(p.rows, Delete(tenant, true, id)).0)
  }

  function Run(p: Pool, es: seq<Event>): Pool
    decreases |es|
  {
    if es == [] then p else Run(Step(p, es[0]), es[1..])
  }

  function InFlight(requests: seq<Allocation>, tenant: nat, user: nat): nat {
    if requests == [] then 0
    else
      var n := |requests| - 1;
      InFlight(requests[..n], tenant, user) +
      if requests[n].live && requests[n].tenant == tenant && requests[n].user == user then 1 else 0
  }

  // The most requests of one user in flight at once, over a run.
  function Peak(p: Pool, es: seq<Event>, tenant: nat, user: nat): nat
    decreases |es|
  {
    var here := InFlight(p.requests, tenant, user);
    if es == [] then here
    else
      var later := Peak(Step(p, es[0]), es[1..], tenant, user);
      if here > later then here else later
  }

  // Committed load plus the load of the requests that may still commit.
  function Load(p: Pool, tenant: nat, user: nat, day: Date): nat {
    DayLoad(p.rows, tenant, user, day) + DayLoad(p.requests, tenant, user, day)
  }

  lemma AppendLoad(rows: seq<Allocation>, a: Allocation, tenant: nat, user: nat, day: Date)
    ensures DayLoad(rows + [a], tenant, user, day)
         == DayLoad(rows, tenant, user, day) + if Loads(a, tenant, user, day) then a.pct else 0
  {
    var n, rows' := |rows|, rows + [a];
    var ids, ids' := DayIds(rows, tenant, user, day), DayIds(rows', tenant, user, day);
    TotalAtMost(rows, ids, rows', ids', n);
    TotalAtMost(rows', ids', rows, ids, n);
  }

  lemma FinishLoad(rows: seq<Allocation>, r: nat, tenant: nat, user: nat, day: Date)
    requires r < |rows|
    ensures DayLoad(rows, tenant, user, day)
         == DayLoad(rows[r := rows[r].(live := false)], tenant, user, day)
            + if Loads(rows[r], tenant, user, day) then rows[r].pct else 0
  {
    var rows' := rows[r := rows[r].(live := false)];
    var ids, ids' := DayIds(rows, tenant, user, day), DayIds(rows', tenant, user, day);
    if Loads(rows[r], tenant, user, day) {
      TotalWithout(rows, ids, r, |rows|);
    }
    TotalAtMost(rows, ids - {r}, rows', ids', |rows|);
    TotalAtMost(rows', ids', rows, ids - {r}, |rows|);
    if r !in ids {
      assert ids - {r} == ids;
    }
  }

  lemma {:induction false} InFlightLoad(requests: seq<Allocation>, tenant: nat, user: nat, day: Date)
    ensures DayLoad(requests, tenant, user, day) <= 100 * InFlight(requests, tenant, user)
  {
    if requests != [] {
      var n := |requests| - 1;
      InFlightLoad(requests[..n], tenant, user, day);
      assert requests == requests[..n] + [requests[n]];
      AppendLoad(requests[..n], requests[n], tenant, user, day);
    }
  }

  // What one step does to a user's load on a day: only a check that passes can raise it, and then
  // the committed part leaves room for the request.
  lemma StepLoad(p: Pool, e: Event, tenant: nat, user: nat, day: Date)
    ensures var p' := Step(p, e);
            || Load(p', tenant, user, day) <= Load(p, tenant, user, day)
            || Load(p', tenant, user, day) <= 100 * InFlight(p'.requests, tenant, user)
  {
    var p' := Step(p, e);
    match e
    case Check(t, u, pct, start, end) =>
      if p' != p {
        var a := p'.requests[|p.requests|];
        AppendLoad(p.requests, a, tenant, user, day);
        if Loads(a, tenant, user, day) {
          var n := |p.rows|;
          assert GuardIds(p.rows, t, u, start, end, Some(n)) == GuardIds(p.rows, t, u, start, end, None);
          GuardedRowFits(p.rows, n, a, p.rows + [a], tenant, user, day);
          AppendLoad(p.rows, a, tenant, user, day);
          InFlightLoad(p.requests, tenant, user, day);
          assert p'.requests[..|p.requests|] == p.requests;
        }
      }
    case Commit(r) =>
      if p' != p {
        AppendLoad(p.rows, p.requests[r], tenant, user, day);
        FinishLoad(p.requests, r, tenant, user, day);
      }
    case Abort(r) =>
      if p' != p {
        FinishLoad(p.requests, r, tenant, user, day);
      }
    case Remove(t, id) =>
      LoadShrinks(p.rows, p'.rows, tenant, user, day);
  }

  lemma {:induction false} LoadStaysBounded(p: Pool, es: seq<Event>, tenant: nat, user: nat, day: Date, k: nat)
    requires Load(p, tenant, user, day) <= 100 * k && Peak(p, es, tenant, user) <= k
    ensures Load(Run(p, es), tenant, user, day) <= 100 * k
    decreases |es|
  {
    if es != [] {
      StepLoad(p, es[0], tenant, user, day);
      LoadStaysBounded(Step(p, es[0]), es[1..], tenant, user, day, k);
    }
  }

  lemma RaceIsBounded(es: seq<Event>, tenant: nat, user: nat, day: Date)
    ensures var start := Pool([], []);
            Load(Run(start, es), tenant, user, day) <= 100 * Peak(start, es, tenant, user)
  {
    var start := Pool([], []);
    assert Load(start, tenant, user, day) == 0;
    LoadStaysBounded(start, es, tenant, user, day, Peak(start, es, tenant, user));
  }

  // One request at a time: the serial guarantee, as a special case of the race.
  lemma OneAtATimeIsSerial(es: seq<Event>)
    requires forall tenant: nat, user: nat :: Peak(Pool([], []), es, tenant, user) <= 1
    ensures WithinCapacity(Run(Pool([], []), es).rows)
  {
    forall tenant: nat, user: nat, day: Date
      ensures DayLoad(Run(Pool([], []), es).rows, tenant, user, day) <= 100
    {
      RaceIsBounded(es, tenant, user, day);
    }
  }

  // A check and its commit with nothing in between are the creation, whatever else is in flight; a
  // check alone, or one that is given up, leaves the table as it is.
  lemma CheckAndCommitIsCreate(p: Pool, tenant: nat, user: nat, pct: Percent, start: Date, end: Option<Date>)
    ensures var (check, r) := (Check(tenant, user, pct, start, end), |p.requests|);
            var checked := Step(p, check);
            && checked.rows == p.rows == Step(checked, Abort(r)).rows
            && Step(checked, Commit(r)).rows == Apply(p.rows, Create(tenant, true, user, pct, start, end, None)).0
            && Step(Step(checked, Abort(r)), Commit(r)).rows == p.rows
            && Step(Step(checked, Commit(r)), Commit(r)) == Step(checked, Commit(r))
  {
  }

  // ---------- The bound is reached ----------

  // k requests for the same full day pass the check one after the other, and then all commit.
  function Checks(k: nat): seq<Event> {
    seq(k, i => Check(0, 0, 100, 1, Some(1)))
  }

  function Commits(from: nat, k: nat): seq<Event>
    requires from <= k
  {
    seq(k - from, (i: nat) => Commit(from + i))
  }

  function FullDay(live: bool): Allocation {
    Allocation(0, 0, 100, 1, Some(1), None, live)
  }

  // After `done` commits of k requests.
  function Halfway(done: nat, k: nat): Pool
    requires done <= k
  {
    Pool(seq(done, i => FullDay(true)), seq(k, i => FullDay(i >= done)))
  }

  lemma {:induction false} ChecksAllPass(j: nat, k: nat)
    ensures Run(Halfway(0, j), Checks(k)) == Halfway(0, j + k)
    ensures Peak(Halfway(0, j), Checks(k), 0, 0) == j + k
    decreases k
  {
    InFlightHalfway(0, j);
    if k > 0 {
      var p := Halfway(0, j);
      assert Checks(k)[0] == Check(0, 0, 100, 1, Some(1)) && Checks(k)[1..] == Checks(k - 1);
      assert p.rows == [];
      assert Step(p, Checks(k)[0]) == Halfway(0, j + 1) by {
        assert p.requests + [FullDay(true)] == Halfway(0, j + 1).requests;
      }
      ChecksAllPass(j + 1, k - 1);
    }
  }

  lemma {:induction false} InFlightHalfway(done: nat, k: nat)
    requires done <= k
    ensures InFlight(Halfway(done, k).requests, 0, 0) == k - done
    decreases k
  {
    var requests := Halfway(done, k).requests;
    if k > 0 {
      if done == k {
        assert requests[..k - 1] == Halfway(k - 1, k - 1).requests;
        InFlightHalfway(k - 1, k - 1);
      } else {
        assert requests[..k - 1] == Halfway(done, k - 1).requests;
        InFlightHalfway(done, k - 1);
      }
    }
  }

  lemma {:induction false} CommitsAllLand(done: nat, k: nat)
    requires done <= k
    ensures Run(Halfway(done, k), Commits(done, k)) == Halfway(k, k)
    ensures Peak(Halfway(done, k), Commits(done, k), 0, 0) == k - done
    decreases k - done
  {
    InFlightHalfway(done, k);
    if done < k {
      var p, es := Halfway(done, k), Commits(done, k);
      assert es[0] == Commit(done) && es[1..] == Commits(done + 1, k);
      assert Step(p, es[0]) == Halfway(done + 1, k) by {
        assert p.rows + [FullDay(true)] == Halfway(done + 1, k).rows;
        assert p.requests[done := FullDay(false)] == Halfway(done + 1, k).requests;
      }
      CommitsAllLand(done + 1, k);
    }
  }

  lemma {:induction false} FullDaysLoad(k: nat)
    ensures DayLoad(seq(k, i => FullDay(true)), 0, 0, 1) == 100 * k
  {
    if k > 0 {
      assert seq(k, i => FullDay(true)) == seq(k - 1, i => FullDay(true)) + [FullDay(true)];
      FullDaysLoad(k - 1);
      AppendLoad(seq(k - 1, i => FullDay(true)), FullDay(true), 0, 0, 1);
    }
  }

  lemma {:induction false} RunAndPeakCompose(p: Pool, es: seq<Event>, fs: seq<Event>, tenant: nat, user: nat)
    ensures Run(p, es + fs) == Run(Run(p, es), fs)
    ensures var first, second := Peak(p, es, tenant, user), Peak(Run(p, es), fs, tenant, user);
            Peak(p, es + fs, tenant, user) == if first > second then first else second
    decreases |es|
  {
    if es == [] {
      assert es + fs == fs;
    } else {
      assert (es + fs)[0] == es[0] && (es + fs)[1..] == es[1..] + fs;
      RunAndPeakCompose(Step(p, es[0]), es[1..], fs, tenant, user);
    }
  }

  lemma RaceBoundIsReached(k: nat)
    ensures var start, es := Pool([], []), Checks(k) + Commits(0, k);
            Peak(start, es, 0, 0) == k && DayLoad(Run(start, es).rows, 0, 0, 1) == 100 * k
  {
    var start := Pool([], []);
    assert start == Halfway(0, 0);
    ChecksAllPass(0, k);
    CommitsAllLand(0, k);
    RunAndPeakCompose(start, Checks(k), Commits(0, k), 0, 0);
    FullDaysLoad(k);
  }
}
