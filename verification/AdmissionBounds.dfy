// What the limit promises about admitted calls: a bound on distinct milliseconds, and the exact
// bound on the calls themselves when several share a millisecond.
module AdmissionBounds {
  import opened RateLimit

  // ---------- What the limit means ----------

  // The call at position i of a key's history is admitted.
  ghost predicate AdmittedAt(window: nat, limit: int, h: seq<nat>, i: nat) {
    i < |h| && Judge(KeyState(window, h[..i + 1]).value, limit).Admitted?
  }

  // The admitted calls in a window that ends at any instant, and their distinct stamps.
  ghost function AdmittedCalls(window: nat, limit: int, h: seq<nat>, end: nat): set<nat> {
    set i: nat | i < |h| && AdmittedAt(window, limit, h, i) && end - 1000 * window < h[i] <= end
  }

  ghost function AdmittedStamps(window: nat, limit: int, h: seq<nat>, end: nat): (stamps: set<nat>)
  {
    set i | i in AdmittedCalls(window, limit, h, end) :: h[i]
  }

  lemma SubsetSize(a: set<nat>, b: set<nat>)
    requires a <= b
    ensures |a| <= |b|
  {
    assert b == a + (b - a);
  }

  lemma {:induction false} Largest(ids: set<nat>) returns (k: nat)
    requires ids != {}
    ensures k in ids && forall i | i in ids :: i <= k
  {
    var one :| one in ids;
    var rest := ids - {one};
    k := one;
    if rest != {} {
      var j := Largest(rest);
      k := if j > one then j else one;
    }
    forall i | i in ids ensures i <= k {
      assert i == one || i in rest;
    }
  }

  // A call is admitted exactly when the window that ends with it is within the limit.
  lemma AdmittedIff(window: nat, limit: int, h: seq<nat>, k: nat)
    requires NonDecreasing(h) && k < |h|
    ensures AdmittedAt(window, limit, h, k) <==> |Window(window, h[..k + 1], h[k])| <= limit
  {
    KeyStateIsTheWindow(window, h[..k + 1]);
  }

  // In every window of the limiter's length, over every run, at most `limit` distinct milliseconds
  // have an admitted call.
  lemma AdmissionIsBounded(window: nat, limit: nat, h: seq<nat>, end: nat)
    requires NonDecreasing(h)
    ensures |AdmittedStamps(window, limit, h, end)| <= limit
  {
    var ids, stamps := AdmittedCalls(window, limit, h, end), AdmittedStamps(window, limit, h, end);
    if ids == {} {
      assert stamps == {};
    } else {
      var k := Largest(ids);
      AdmittedIff(window, limit, h, k);
      forall v | v in stamps ensures v in Window(window, h[..k + 1], h[k]) {
        var i :| i in ids && h[i] == v;
        assert h[..k + 1][i] == v && h[i] <= h[k];
      }
      SubsetSize(stamps, Window(window, h[..k + 1], h[k]));
    }
  }

  lemma {:induction false} IntervalSize(s: set<nat>, lo: int, hi: nat)
    requires lo <= hi && forall v | v in s :: lo < v <= hi
    ensures |s| <= hi - lo
    decreases hi - lo
  {
    if lo == hi {
      assert s == {};
    } else if hi == 0 {
      SubsetSize(s, {0});
    } else {
      var rest := s - {hi};
      IntervalSize(rest, lo, hi - 1);
      if hi in s {
        assert s == rest + {hi};
      } else {
        assert s == rest;
      }
    }
  }

  // The count is of milliseconds, so a window of W seconds never counts more than 1000 * W, and a
  // larger limit never refuses.
  lemma CountIsAtMostTheWindow(window: nat, h: seq<nat>)
    requires h != [] && NonDecreasing(h)
    ensures 1 <= |KeyState(window, h).value.members| <= if window == 0 then 1 else 1000 * window
  {
    var now := h[|h| - 1];
    KeyStateIsTheWindow(window, h);
    var members := Window(window, h, now);
    assert h[|h| - 1] in members;
    IntervalSize(members, if window == 0 then now - 1 else now - 1000 * window, now);
    SubsetSize({now}, members);
  }

  // A call after a window of silence is admitted.
  lemma SilenceResets(window: nat, limit: nat, h: seq<nat>, now: nat)
    requires NonDecreasing(h) && limit >= 1
    requires h != [] ==> now >= h[|h| - 1] + 1000 * window
    ensures AdmittedAt(window, limit, h + [now], |h|)
  {
    var g := h + [now];
    assert g[..|h| + 1] == g && g[..|g| - 1] == h;
    if h != [] {
      KeyStateIsTheWindow(window, h);
    }
    assert KeyState(window, g).value.members == {now};
  }

  // ---------- Calls, not milliseconds ----------

  // Any number of calls in one millisecond is admitted under a limit of one.
  lemma SameMillisecondIsUnlimited(window: nat, n: nat, now: nat)
    ensures var h := seq(n, i => now);
            NonDecreasing(h) && forall i: nat | i < n :: AdmittedAt(window, 1, h, i)
  {
    var h := seq(n, i => now);
    forall i: nat | i < n ensures AdmittedAt(window, 1, h, i) {
      var g := h[..i + 1];
      KeyStateIsTheWindow(window, g);
      assert g[i] == now;
      assert Window(window, g, now) == {now};
    }
  }

  ghost predicate SameStamps(g: seq<nat>, h: seq<nat>) {
    forall v: nat :: v in g <==> v in h
  }

  lemma SameStampsSameWindow(window: nat, g: seq<nat>, h: seq<nat>, now: nat)
    requires SameStamps(g, h)
    ensures Window(window, g, now) == Window(window, h, now)
  {
    assert forall v: nat :: v in Window(window, g, now) <==> v in g && InWindow(window, v, now);
    assert forall v: nat :: v in Window(window, h, now) <==> v in h && InWindow(window, v, now);
  }

  lemma RepeatsAddNoStamp(g: seq<nat>, rest: seq<nat>)
    requires g != [] && forall k | 0 <= k < |rest| :: rest[k] == g[|g| - 1]
    ensures SameStamps(g, g + rest)
  {
  }

  // Calls of one key in one millisecond get one verdict.
  lemma SameMillisecondSameVerdict(window: nat, limit: int, h: seq<nat>, i: nat, j: nat)
    requires NonDecreasing(h) && i < j < |h| && h[i] == h[j]
    ensures AdmittedAt(window, limit, h, i) <==> AdmittedAt(window, limit, h, j)
  {
    AdmittedIff(window, limit, h, i);
    AdmittedIff(window, limit, h, j);
    var g, rest := h[..i + 1], h[i + 1..j + 1];
    assert h[..j + 1] == g + rest;
    RepeatsAddNoStamp(g, rest);
    SameStampsSameWindow(window, g, h[..j + 1], h[i]);
  }

  // How many calls the history has in millisecond v.
  function Times(h: seq<nat>, v: nat): nat {
    if h == [] then 0 else Times(h[..|h| - 1], v) + if h[|h| - 1] == v then 1 else 0
  }

  // No millisecond has more than m calls.
  ghost predicate AtMostTimes(h: seq<nat>, m: nat) {
    forall v: nat :: Times(h, v) <= m
  }

  lemma {:induction false} FiberSize(h: seq<nat>, ids: set<nat>, v: nat)
    requires forall i | i in ids :: i < |h| && h[i] == v
    ensures |ids| <= Times(h, v)
  {
    if h == [] {
      assert ids == {};
    } else {
      var n: nat := |h| - 1;
      var rest := ids - {n};
      FiberSize(h[..n], rest, v);
      if n in ids {
        assert ids == rest + {n};
      } else {
        assert ids == rest;
      }
    }
  }

  // One fiber and the rest.
  lemma OneFiber(h: seq<nat>, ids: set<nat>, rest: set<nat>, v: nat, m: nat)
    requires AtMostTimes(h, m) && rest <= ids
    requires forall i | i in ids :: i < |h| && (i in rest || h[i] == v)
    ensures |ids| <= |rest| + m
  {
    assert ids == (ids - rest) + rest;
    FiberSize(h, ids - rest, v);
    assert Times(h, v) <= m;
  }

  lemma OneMore(n: nat, m: nat)
    requires n > 0
    ensures (n - 1) * m + m == n * m
  {
  }

  lemma {:induction false} FibersSize(h: seq<nat>, ids: set<nat>, stamps: set<nat>, m: nat)
    requires AtMostTimes(h, m) && forall i | i in ids :: i < |h| && h[i] in stamps
    ensures |ids| <= |stamps| * m
    decreases |stamps|
  {
    if stamps == {} {
      assert ids == {};
    } else {
      var v :| v in stamps;
      var rest := set i | i in ids && h[i] != v;
      FibersSize(h, rest, stamps - {v}, m);
      OneFiber(h, ids, rest, v, m);
      OneMore(|stamps|, m);
    }
  }

  lemma MoreFactors(a: nat, b: nat, m: nat)
    requires a <= b
    ensures a * m <= b * m
  {
  }

  // The milliseconds of a window in which a limiter can admit.
  function Room(window: nat, limit: nat): nat {
    if limit < 1000 * window then limit else 1000 * window
  }

  // In every window at most `limit` calls are admitted (and at most one per millisecond of the
  // window) for each call that one millisecond can hold.
  lemma CallsAreBounded(window: nat, limit: nat, h: seq<nat>, end: nat, m: nat)
    requires NonDecreasing(h) && AtMostTimes(h, m)
    ensures |AdmittedCalls(window, limit, h, end)| <= Room(window, limit) * m
  {
    var stamps := AdmittedStamps(window, limit, h, end);
    AdmissionIsBounded(window, limit, h, end);
    IntervalSize(stamps, end - 1000 * window, end);
    FibersSize(h, AdmittedCalls(window, limit, h, end), stamps, m);
    MoreFactors(|stamps|, Room(window, limit), m);
  }

  // ---------- The bound on calls is reached ----------

  // m calls in each of the milliseconds 0 to n - 1.
  function Bursts(n: nat, m: nat): seq<nat> {
    if n == 0 then [] else Bursts(n - 1, m) + seq(m, i => n - 1)
  }

  lemma {:induction false} BurstsShape(n: nat, m: nat)
    ensures |Bursts(n, m)| == n * m && NonDecreasing(Bursts(n, m))
    ensures forall i | 0 <= i < |Bursts(n, m)| :: Bursts(n, m)[i] < n
  {
    if n > 0 {
      BurstsShape(n - 1, m);
      assert n * m == (n - 1) * m + m;
    }
  }

  lemma {:induction false} TimesConcat(a: seq<nat>, b: seq<nat>, v: nat)
    ensures Times(a + b, v) == Times(a, v) + Times(b, v)
  {
    if b == [] {
      assert a + b == a;
    } else {
      var n := |b| - 1;
      TimesConcat(a, b[..n], v);
      assert (a + b)[..|a| + n] == a + b[..n];
    }
  }

  lemma {:induction false} TimesConstant(m: nat, c: nat, v: nat)
    ensures Times(seq(m, i => c), v) == if v == c then m else 0
  {
    if m > 0 {
      TimesConstant(m - 1, c, v);
      assert seq(m, i => c)[..m - 1] == seq(m - 1, i => c);
    }
  }

  lemma {:induction false} BurstsTimes(n: nat, m: nat, v: nat)
    ensures Times(Bursts(n, m), v) == if v < n then m else 0
  {
    if n > 0 {
      BurstsTimes(n - 1, m, v);
      TimesConcat(Bursts(n - 1, m), seq(m, i => n - 1), v);
      TimesConstant(m, n - 1, v);
    }
  }

  function Below(n: nat): (ids: set<nat>)
    ensures |ids| == n && forall i: nat :: i in ids <==> i < n
  {
    if n == 0 then {} else Below(n - 1) + {n - 1}
  }

  // Every call of at most `limit` such bursts is admitted.
  lemma BurstsAreAdmitted(window: nat, limit: nat, n: nat, m: nat, i: nat)
    requires n <= limit && i < |Bursts(n, m)|
    ensures AdmittedAt(window, limit, Bursts(n, m), i)
  {
    var h := Bursts(n, m);
    BurstsShape(n, m);
    AdmittedIff(window, limit, h, i);
    IntervalSize(Window(window, h[..i + 1], h[i]), -1, h[i]);
  }

  // The bound is tight: for every window, every limit, and every number m of calls per millisecond,
  // some history has exactly that many admitted calls in one window.
  lemma CallBoundIsReached(window: nat, limit: nat, m: nat) returns (h: seq<nat>, end: nat)
    ensures NonDecreasing(h) && AtMostTimes(h, m)
    ensures |AdmittedCalls(window, limit, h, end)| == Room(window, limit) * m
  {
    var n := Room(window, limit);
    h, end := Bursts(n, m), if n == 0 then 0 else n - 1;
    BurstsShape(n, m);
    forall v: nat ensures Times(h, v) <= m {
      BurstsTimes(n, m, v);
    }
    forall i: nat | i < |h| ensures AdmittedAt(window, limit, h, i) {
      BurstsAreAdmitted(window, limit, n, m, i);
    }
    assert AdmittedCalls(window, limit, h, end) == Below(|h|);
  }

  // Over all histories with at most m calls per millisecond, a limiter's limit bounds the admitted
  // calls of every window.
  ghost predicate LimitBoundsCalls(window: nat, limit: nat, m: nat) {
    forall h: seq<nat>, end: nat | NonDecreasing(h) && AtMostTimes(h, m) ::
      |AdmittedCalls(window, limit, h, end)| <= limit
  }

  lemma LimitBoundsCallsIff(window: nat, limit: nat, m: nat)
    ensures LimitBoundsCalls(window, limit, m) <==> Room(window, limit) * m <= limit
  {
    if Room(window, limit) * m <= limit {
      forall h: seq<nat>, end: nat | NonDecreasing(h) && AtMostTimes(h, m)
        ensures |AdmittedCalls(window, limit, h, end)| <= limit
      {
        CallsAreBounded(window, limit, h, end, m);
      }
    } else {
      var h, end := CallBoundIsReached(window, limit, m);
      assert |AdmittedCalls(window, limit, h, end)| > limit;
    }
  }

  lemma RoomIsEnough(window: nat, limit: nat, m: nat)
    requires m <= 1 || window == 0
    ensures Room(window, limit) * m <= limit
  {
    if m <= 1 {
      MoreFactors(m, 1, Room(window, limit));
    } else {
      assert Room(window, limit) == 0;
    }
  }

  // Every limit does if and only if calls have milliseconds of their own, or the window has none.
  lemma EveryLimitBoundsCallsIff(window: nat, m: nat)
    ensures (forall limit: nat :: LimitBoundsCalls(window, limit, m)) <==> m <= 1 || window == 0
  {
    if m <= 1 || window == 0 {
      forall limit: nat ensures LimitBoundsCalls(window, limit, m) {
        RoomIsEnough(window, limit, m);
        LimitBoundsCallsIff(window, limit, m);
      }
    } else {
      LimitBoundsCallsIff(window, 1, m);
      assert Room(window, 1) == 1;
    }
  }
}
