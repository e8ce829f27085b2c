// Calls that reach the server out of the order of their stamps: a check reads the clock first and
// sends its commands later, so another check may overtake it.
module LateCalls {
  import opened Prelude
  import opened RateLimit
  import opened AdmissionBounds

  // A call is overtaken only by calls stamped at most `skew` milliseconds later.
  ghost predicate NearlyOrdered(h: seq<nat>, skew: nat) {
    forall i, j | 0 <= i < j < |h| :: h[i] <= h[j] + skew
  }

  // ---------- The set, out of order ----------

  lemma {:induction false} MembersAreStamps(window: nat, h: seq<nat>, v: nat)
    requires v in Unexpiring(window, h)
    ensures v in h
  {
    var n := |h| - 1;
    if v != h[n] {
      MembersAreStamps(window, h[..n], v);
    }
  }

  lemma StampsAreBelow(h: seq<nat>, skew: nat, v: nat)
    requires h != [] && NearlyOrdered(h, skew) && v in h
    ensures v <= h[|h| - 1] + skew
  {
  }

  // The expiry leaves a second more than the window, so a skew of at most a second cannot show it.
  lemma {:induction false} ExpiryIsNeverSeen(window: nat, h: seq<nat>, skew: nat)
    requires h != [] && NearlyOrdered(h, skew) && skew <= 1000
    ensures KeyState(window, h) == Some(SortedSet(Unexpiring(window, h), h[|h| - 1] + 1000 * (window + 1)))
  {
    var n := |h| - 1;
    var g, now := h[..n], h[n];
    if g != [] {
      ExpiryIsNeverSeen(window, g, skew);
      var members := Unexpiring(window, g);
      if g[n - 1] + 1000 * (window + 1) < now {
        forall v | v in members ensures v <= now - 1000 * window {
          MembersAreStamps(window, g, v);
          StampsAreBelow(g, skew, v);
        }
        assert Touch(window, members, now) == {now} == Touch(window, {}, now);
      }
    }
  }

  // The same set with the expiry on the server's own clock: call i is executed at instant at[i].
  function ServedState(window: nat, h: seq<nat>, at: seq<nat>): Option<SortedSet>
    requires |at| == |h|
  {
    if h == [] then None
    else
      var n := |h| - 1;
      var before := ServedState(window, h[..n], at[..n]);
      Some(SortedSet(Touch(window, Alive(before, at[n]), h[n]), at[n] + 1000 * (window + 1)))
  }

  // Every call is executed in this order, at most `delay` milliseconds after its clock was read.
  ghost predicate Served(h: seq<nat>, at: seq<nat>, delay: nat) {
    && |at| == |h|
    && (forall i, j | 0 <= i < j < |at| :: at[i] <= at[j])
    && (forall i | 0 <= i < |h| :: h[i] <= at[i] <= h[i] + delay)
  }

  lemma {:induction false} ServerExpiryIsNeverSeen(window: nat, h: seq<nat>, at: seq<nat>, delay: nat)
    requires h != [] && Served(h, at, delay) && delay <= 1000
    ensures ServedState(window, h, at)
         == Some(SortedSet(Unexpiring(window, h), at[|at| - 1] + 1000 * (window + 1)))
  {
    var n := |h| - 1;
    var g, now := h[..n], h[n];
    if g != [] {
      ServerExpiryIsNeverSeen(window, g, at[..n], delay);
      var members := Unexpiring(window, g);
      if at[n - 1] + 1000 * (window + 1) < at[n] {
        forall v | v in members ensures v <= now - 1000 * window {
          MembersAreStamps(window, g, v);
          var i :| 0 <= i < n && g[i] == v;
          assert v <= at[i] <= at[n - 1];
        }
        assert Touch(window, members, now) == {now} == Touch(window, {}, now);
      }
    }
  }

  // So up to a second of delay it does not matter on which clock a key expires.
  lemma ClocksAgree(window: nat, h: seq<nat>, at: seq<nat>, delay: nat)
    requires h != [] && Served(h, at, delay) && delay <= 1000
    ensures ServedState(window, h, at).value.members == KeyState(window, h).value.members
  {
    ServerExpiryIsNeverSeen(window, h, at, delay);
    forall i, j | 0 <= i < j < |h| ensures h[i] <= h[j] + delay {
      assert h[i] <= at[i] <= at[j] <= h[j] + delay;
    }
    ExpiryIsNeverSeen(window, h, delay);
  }

  // A stamp less than a window older than every other is still there.
  lemma StampStays(window: nat, h: seq<nat>, v: nat)
    requires v in h && forall x | x in h :: v > x - 1000 * window
    ensures v in Unexpiring(window, h)
  {
    var i :| 0 <= i < |h| && h[i] == v;
    assert forall j | i < j < |h| :: h[j] in h;
    MembersExact(window, h, v);
  }

  // ---------- What a window admits ----------

  // The limit, and one more for each millisecond of skew after the first.
  function Allowance(limit: nat, skew: nat): nat {
    if limit <= 1 || skew == 0 then limit else limit + skew - 1
  }

  // The admitted stamps of a window that ends at `end` are at most `limit` if its first `skew`
  // milliseconds are left out, and at most the allowance in all.
  ghost predicate Bounded(window: nat, limit: nat, skew: nat, stamps: set<nat>, end: nat) {
    && |Prune(stamps, end - 1000 * window + skew)| <= limit
    && |stamps| <= Allowance(limit, skew)
  }

  lemma NothingIsBounded(window: nat, limit: nat, skew: nat, stamps: set<nat>, end: nat)
    requires forall v: nat :: v !in stamps
    ensures Bounded(window, limit, skew, stamps, end)
  {
    assert stamps == {} && Prune(stamps, end - 1000 * window + skew) == {};
  }

  // Stamps of a window that ends with or after a call that left at most `limit` members in the set.
  lemma LateStampsFit(window: nat, limit: nat, h: seq<nat>, skew: nat, stamps: set<nat>, end: nat)
    requires h != [] && NearlyOrdered(h, skew) && skew <= 1000
    requires |Unexpiring(window, h)| <= limit && h[|h| - 1] <= end
    requires forall v | v in stamps :: v in h && end - 1000 * window < v <= end
    ensures Bounded(window, limit, skew, stamps, end)
  {
    var members := Unexpiring(window, h);
    var kept := Prune(stamps, end - 1000 * window + skew);
    forall v | v in kept ensures v in members {
      forall x | x in h ensures v > x - 1000 * window {
        StampsAreBelow(h, skew, x);
      }
      StampStays(window, h, v);
    }
    SubsetSize(kept, members);
    if stamps <= members {
      SubsetSize(stamps, members);
    } else {
      var v :| v in stamps && v !in members;
      var x := Overtaker(window, h, skew, v, end);
      PrunedStampsFit(window, limit, members, kept, stamps, skew, h[|h| - 1], x, end);
    }
  }

  // A stamp of the window is missing only if a call stamped after the window's end overtook it.
  lemma Overtaker(window: nat, h: seq<nat>, skew: nat, v: nat, end: nat) returns (x: nat)
    requires h != [] && NearlyOrdered(h, skew) && skew <= 1000 && h[|h| - 1] <= end
    requires v in h && v !in Unexpiring(window, h) && end - 1000 * window < v <= end
    ensures end < x <= end + skew && x in Unexpiring(window, h) && h[|h| - 1] in Unexpiring(window, h)
  {
    if forall y | y in h :: v > y - 1000 * window {
      StampStays(window, h, v);
    }
    x :| x in h && v <= x - 1000 * window;
    StampsAreBelow(h, skew, x);
    forall y | y in h ensures x > y - 1000 * window {
      StampsAreBelow(h, skew, y);
    }
    StampStays(window, h, x);
  }

  lemma PrunedStampsFit(window: nat, limit: nat, members: set<nat>, kept: set<nat>, stamps: set<nat>, skew: nat,
                        last: nat, x: nat, end: nat)
    requires |members| <= limit && kept <= members && kept <= stamps
    requires last in members && x in members && last <= end < x <= end + skew
    requires forall v | v in stamps :: end - 1000 * window < v <= end
    requires forall v | v in stamps && v !in kept :: v <= end - 1000 * window + skew
    requires stamps != {}
    ensures limit >= 2 && |stamps| <= limit + skew - 1
  {
    SubsetSize({last, x}, members);
    SubsetSize(kept + {x}, members);
    var rest := stamps - kept;
    assert stamps == kept + rest;
    if rest != {} {
      var v :| v in rest;
      IntervalSize(rest, end - 1000 * window, end - 1000 * window + skew);
    }
  }

  // A call is admitted exactly when the set it leaves is within the limit.
  lemma LateAdmittedIff(window: nat, limit: int, h: seq<nat>, skew: nat, k: nat)
    requires NearlyOrdered(h, skew) && skew <= 1000 && k < |h|
    ensures AdmittedAt(window, limit, h, k) <==> |Unexpiring(window, h[..k + 1])| <= limit
  {
    ExpiryIsNeverSeen(window, h[..k + 1], skew);
  }

  lemma StampsUpTo(window: nat, limit: nat, h: seq<nat>, end: nat, k: nat)
    requires k < |h| && forall i | i in AdmittedCalls(window, limit, h, end) :: i <= k
    ensures forall v | v in AdmittedStamps(window, limit, h, end) ::
              v in h[..k + 1] && end - 1000 * window < v <= end
  {
    forall i | i in AdmittedCalls(window, limit, h, end) ensures h[i] in h[..k + 1] {
      assert h[..k + 1][i] == h[i];
    }
  }

  // In every history whose stamps are out of order by at most a second.
  lemma LateAdmissionIsBounded(window: nat, limit: nat, h: seq<nat>, skew: nat, end: nat)
    requires NearlyOrdered(h, skew) && skew <= 1000
    ensures Bounded(window, limit, skew, AdmittedStamps(window, limit, h, end), end)
  {
    var ids, stamps := AdmittedCalls(window, limit, h, end), AdmittedStamps(window, limit, h, end);
    if ids == {} {
      NothingIsBounded(window, limit, skew, stamps, end);
    } else {
      var k := Largest(ids);
      var seen := h[..k + 1];
      LateAdmittedIff(window, limit, h, skew, k);
      StampsUpTo(window, limit, h, end, k);
      assert NearlyOrdered(seen, skew) && seen[|seen| - 1] == h[k];
      LateStampsFit(window, limit, seen, skew, stamps, end);
    }
  }

  // ---------- When the limit itself is kept ----------

  // A call in each of the first `limit` milliseconds, one that prunes the first two, and one that it
  // overtook by two milliseconds.
  function Overtaken(window: nat, limit: nat): seq<nat>
    requires window > 0
  {
    seq(limit, i => i) + [1000 * window + 1, 1000 * window - 1]
  }

  lemma OvertakenShape(window: nat, limit: nat)
    requires 2 <= limit < 1000 * window
    ensures NearlyOrdered(Overtaken(window, limit), 2)
    ensures var h := Overtaken(window, limit);
            forall i, j | 0 <= i < |h| && 0 <= j < |h| && i != j :: h[i] != h[j]
  {
  }

  lemma EarlySet(window: nat, limit: nat, k: nat)
    requires 2 <= limit < 1000 * window && k < limit
    ensures |Unexpiring(window, Overtaken(window, limit)[..k + 1])| <= limit
  {
    var seen := Overtaken(window, limit)[..k + 1];
    forall v | v in Unexpiring(window, seen) ensures -1 < v <= limit - 1 {
      MembersAreStamps(window, seen, v);
    }
    IntervalSize(Unexpiring(window, seen), -1, limit - 1);
  }

  lemma LateSet(window: nat, limit: nat, seen: seq<nat>)
    requires 2 <= limit < 1000 * window
    requires Overtaken(window, limit)[..limit + 1] <= seen <= Overtaken(window, limit)
    ensures |Unexpiring(window, seen)| <= limit
  {
    var members := Unexpiring(window, seen);
    var late := {1000 * window + 1, 1000 * window - 1};
    assert seen[limit] == Overtaken(window, limit)[..limit + 1][limit] == 1000 * window + 1;
    forall v | v in members - late ensures 1 < v <= limit - 1 {
      MembersExact(window, seen, v);
      var i :| 0 <= i < |seen| && seen[i] == v && forall j | i < j < |seen| :: v > seen[j] - 1000 * window;
    }
    IntervalSize(members - late, 1, limit - 1);
    SubsetSize(members, (members - late) + late);
  }

  // The set never has more than `limit` members.
  lemma OvertakenIsAdmitted(window: nat, limit: nat, k: nat)
    requires 2 <= limit < 1000 * window && k < limit + 2
    ensures AdmittedAt(window, limit, Overtaken(window, limit), k)
  {
    var h := Overtaken(window, limit);
    var seen := h[..k + 1];
    OvertakenShape(window, limit);
    LateAdmittedIff(window, limit, h, 2, k);
    if k < limit {
      EarlySet(window, limit, k);
    } else {
      assert h[..limit + 1] == seen[..limit + 1] && h[..k + 1] == seen;
      LateSet(window, limit, seen);
    }
  }

  lemma {:induction false} InjectiveImage(h: seq<nat>, ids: set<nat>)
    requires forall i | i in ids :: i < |h|
    requires forall i, j | i in ids && j in ids && i != j :: h[i] != h[j]
    ensures |set i | i in ids :: h[i]| == |ids|
  {
    var image := set i | i in ids :: h[i];
    if ids != {} {
      var k :| k in ids;
      var rest := ids - {k};
      InjectiveImage(h, rest);
      assert image == (set i | i in rest :: h[i]) + {h[k]};
    } else {
      assert image == {};
    }
  }

  lemma OvertakenInWindow(window: nat, limit: nat, i: nat)
    requires 2 <= limit < 1000 * window
    ensures i in AdmittedCalls(window, limit, Overtaken(window, limit), 1000 * window - 1)
            <==> i < limit + 2 && i != limit
  {
    if i < limit + 2 {
      OvertakenIsAdmitted(window, limit, i);
    }
  }

  // Two milliseconds of skew suffice to admit more than the limit in one window.
  lemma LateCallExceedsTheLimit(window: nat, limit: nat) returns (h: seq<nat>, end: nat)
    requires 2 <= limit < 1000 * window
    ensures NearlyOrdered(h, 2) && |AdmittedStamps(window, limit, h, end)| == limit + 1
  {
    h, end := Overtaken(window, limit), 1000 * window - 1;
    OvertakenShape(window, limit);
    var ids := AdmittedCalls(window, limit, h, end);
    forall i: nat ensures i in ids <==> i in Below(|h|) - {limit} {
      OvertakenInWindow(window, limit, i);
    }
    assert ids == Below(|h|) - {limit};
    InjectiveImage(h, ids);
  }

  // Over all histories within a skew, the limit bounds the distinct admitted milliseconds of every window.
  ghost predicate LimitBoundsStamps(window: nat, limit: nat, skew: nat) {
    forall h: seq<nat>, end: nat | NearlyOrdered(h, skew) :: |AdmittedStamps(window, limit, h, end)| <= limit
  }

  lemma LimitBoundsStampsIff(window: nat, limit: nat, skew: nat)
    requires skew <= 1000
    ensures LimitBoundsStamps(window, limit, skew) <==> skew <= 1 || limit <= 1 || 1000 * window <= limit
  {
    if skew <= 1 || limit <= 1 || 1000 * window <= limit {
      forall h: seq<nat>, end: nat | NearlyOrdered(h, skew)
        ensures |AdmittedStamps(window, limit, h, end)| <= limit
      {
        LateAdmissionIsBounded(window, limit, h, skew, end);
        IntervalSize(AdmittedStamps(window, limit, h, end), end - 1000 * window, end);
      }
    } else {
      var h, end := LateCallExceedsTheLimit(window, limit);
      assert NearlyOrdered(h, skew);
      assert |AdmittedStamps(window, limit, h, end)| > limit;
    }
  }

  // ---------- The store ----------

  // The store admits call i of a sequence of calls on any keys.
  ghost predicate Admits(window: nat, calls: seq<Call>, i: nat)
    requires i < |calls|
  {
    CheckStep(window, RunCalls(window, calls[..i]), calls[i]).1.Admitted?
  }

  ghost function AdmittedIds(window: nat, calls: seq<Call>, key: string, end: nat): (ids: set<nat>)
    ensures forall i | i in ids :: i < |calls|
  {
    set i: nat | i < |calls| && calls[i].key == key && Admits(window, calls, i)
                 && end - 1000 * window < calls[i].now <= end
  }

  // The distinct stamps at which the store admitted a call on a key, in a window that ends at `end`.
  ghost function AdmittedOnKey(window: nat, calls: seq<Call>, key: string, end: nat): set<nat> {
    set i | i in AdmittedIds(window, calls, key, end) :: calls[i].now
  }

  ghost predicate NearlyClocked(calls: seq<Call>, skew: nat) {
    forall i, j | 0 <= i < j < |calls| :: calls[i].now <= calls[j].now + skew
  }

  lemma {:induction false} HistoryIsOfCalls(calls: seq<Call>, key: string, t: nat)
    requires t in KeyHistory(calls, key)
    ensures exists i :: 0 <= i < |calls| && calls[i].now == t
  {
    var n := |calls| - 1;
    if t in KeyHistory(calls[..n], key) {
      HistoryIsOfCalls(calls[..n], key, t);
      var i :| 0 <= i < n && calls[..n][i].now == t;
      assert calls[i].now == t;
    } else {
      assert calls[n].now == t;
    }
  }

  lemma {:induction false} CallIsInHistory(calls: seq<Call>, key: string, i: nat)
    requires i < |calls| && calls[i].key == key
    ensures calls[i].now in KeyHistory(calls, key)
  {
    if i < |calls| - 1 {
      CallIsInHistory(calls[..|calls| - 1], key, i);
    }
  }

  lemma {:induction false} KeyHistoryIsNearlyOrdered(calls: seq<Call>, key: string, skew: nat)
    requires NearlyClocked(calls, skew)
    ensures NearlyOrdered(KeyHistory(calls, key), skew)
  {
    if calls != [] {
      var n := |calls| - 1;
      var g, h := KeyHistory(calls[..n], key), KeyHistory(calls, key);
      KeyHistoryIsNearlyOrdered(calls[..n], key, skew);
      forall i, j | 0 <= i < j < |h| ensures h[i] <= h[j] + skew {
        assert h[i] == g[i] && g[i] in g;
        HistoryIsOfCalls(calls[..n], key, g[i]);
      }
    }
  }

  lemma LastVerdict(window: nat, calls: seq<Call>)
    requires calls != []
    ensures var n := |calls| - 1;
            var s := KeyState(window, KeyHistory(calls, calls[n].key));
            && s.Some?
            && CheckStep(window, RunCalls(window, calls[..n]), calls[n]).1 == Judge(s.value, calls[n].limit)
  {
    StoreIsPerKey(window, calls, calls[|calls| - 1].key);
  }

  // The store's verdict on a call is read off the set of its key.
  lemma AdmitsIff(window: nat, calls: seq<Call>, i: nat)
    requires i < |calls|
    ensures var s := KeyState(window, KeyHistory(calls[..i + 1], calls[i].key));
            s.Some? && (Admits(window, calls, i) <==> Judge(s.value, calls[i].limit).Admitted?)
  {
    var seen := calls[..i + 1];
    assert seen[..i] == calls[..i] && seen[i] == calls[i];
    LastVerdict(window, seen);
  }

  // What an admitted call leaves on its key is within the limit.
  lemma AdmittedLeavesFew(window: nat, calls: seq<Call>, skew: nat, k: nat)
    requires k < |calls| && NearlyClocked(calls, skew) && skew <= 1000 && Admits(window, calls, k)
    ensures var h := KeyHistory(calls[..k + 1], calls[k].key);
            && h != [] && h[|h| - 1] == calls[k].now && NearlyOrdered(h, skew)
            && |Unexpiring(window, h)| <= calls[k].limit
  {
    var seen := calls[..k + 1];
    assert seen[..k] == calls[..k] && seen[k] == calls[k];
    var h := KeyHistory(seen, calls[k].key);
    KeyHistoryIsNearlyOrdered(seen, calls[k].key, skew);
    AdmitsIff(window, calls, k);
    ExpiryIsNeverSeen(window, h, skew);
  }

  lemma AdmittedStampsAreKept(window: nat, calls: seq<Call>, key: string, end: nat, k: nat)
    requires k < |calls| && forall i | i in AdmittedIds(window, calls, key, end) :: i <= k
    ensures forall v | v in AdmittedOnKey(window, calls, key, end) ::
              v in KeyHistory(calls[..k + 1], key) && end - 1000 * window < v <= end
  {
    forall i | i in AdmittedIds(window, calls, key, end)
      ensures calls[i].now in KeyHistory(calls[..k + 1], key)
    {
      assert calls[..k + 1][i] == calls[i];
      CallIsInHistory(calls[..k + 1], key, i);
    }
  }

  // In every run of calls on all keys that reach the server out of order by at most a second, for a
  // key with a fixed limit.
  lemma KeyAdmissionIsBounded(window: nat, calls: seq<Call>, key: string, limit: nat, skew: nat, end: nat)
    requires NearlyClocked(calls, skew) && skew <= 1000
    requires forall i | 0 <= i < |calls| && calls[i].key == key :: calls[i].limit == limit
    ensures Bounded(window, limit, skew, AdmittedOnKey(window, calls, key, end), end)
  {
    var ids, stamps := AdmittedIds(window, calls, key, end), AdmittedOnKey(window, calls, key, end);
    if ids == {} {
      NothingIsBounded(window, limit, skew, stamps, end);
    } else {
      var k := Largest(ids);
      AdmittedLeavesFew(window, calls, skew, k);
      AdmittedStampsAreKept(window, calls, key, end, k);
      LateStampsFit(window, limit, KeyHistory(calls[..k + 1], key), skew, stamps, end);
    }
  }

  // ---------- Calls on one key ----------

  function CallsAt(key: string, limit: nat, h: seq<nat>): seq<Call> {
    seq(|h|, i requires 0 <= i < |h| => Call(key, limit, h[i]))
  }

  lemma LastCallAt(key: string, limit: nat, h: seq<nat>)
    requires h != []
    ensures var n := |h| - 1; CallsAt(key, limit, h) == CallsAt(key, limit, h[..n]) + [Call(key, limit, h[n])]
  {
  }

  lemma {:induction false} HistoryOfCallsAt(key: string, limit: nat, h: seq<nat>)
    ensures KeyHistory(CallsAt(key, limit, h), key) == h
  {
    if h != [] {
      var n := |h| - 1;
      HistoryOfCallsAt(key, limit, h[..n]);
      assert CallsAt(key, limit, h)[..n] == CallsAt(key, limit, h[..n]);
    }
  }

  lemma AdmitsAt(window: nat, key: string, limit: nat, h: seq<nat>, i: nat)
    requires i < |h|
    ensures Admits(window, CallsAt(key, limit, h), i) <==> AdmittedAt(window, limit, h, i)
  {
    var calls := CallsAt(key, limit, h);
    assert calls[..i + 1] == CallsAt(key, limit, h[..i + 1]);
    HistoryOfCallsAt(key, limit, h[..i + 1]);
    AdmitsIff(window, calls, i);
  }

  // On one key the store admits what the key's history admits.
  lemma AdmittedOnOneKey(window: nat, key: string, limit: nat, h: seq<nat>, end: nat)
    ensures AdmittedOnKey(window, CallsAt(key, limit, h), key, end) == AdmittedStamps(window, limit, h, end)
  {
    var calls := CallsAt(key, limit, h);
    forall i: nat
      ensures i in AdmittedIds(window, calls, key, end) <==> i in AdmittedCalls(window, limit, h, end)
    {
      if i < |h| {
        AdmitsAt(window, key, limit, h, i);
      }
    }
    assert AdmittedIds(window, calls, key, end) == AdmittedCalls(window, limit, h, end);
  }
}
