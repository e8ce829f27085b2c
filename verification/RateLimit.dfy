// The gateway's sliding-window limiter: a pruned, expiring sorted set per key, and its agreement
// with the full history of calls.
module RateLimit {
  import opened Prelude

  // Instants are milliseconds. A member of the sorted set is the stamp it is scored by, so two calls
  // in the same millisecond are one member. The key expires once the clock has passed `expiry`.
  datatype SortedSet = SortedSet(members: set<nat>, expiry: int)

  // One call of the limiter; the window is given in seconds.
  datatype Call = Call(key: string, limit: int, now: nat)

  datatype Request = Request(ip: string, tenant: Option<string>, ipNow: nat, tenantNow: nat)

  datatype Verdict = Admitted | Limited(count: nat)

  function Millis(window: nat): nat {
    window * 1000
  }

  // ---------- One key ----------

  function Prune(members: set<nat>, start: int): set<nat> {
    set v | v in members && v > start
  }

  // What one call leaves in a set: the range [0, now - W] is removed and the stamp is added.
  function Touch(window: nat, members: set<nat>, now: nat): set<nat> {
    Prune(members, now - Millis(window)) + {now}
  }

  function Alive(s: Option<SortedSet>, now: nat): set<nat> {
    if s.Some? && now <= s.value.expiry then s.value.members else {}
  }

  function Next(window: nat, s: Option<SortedSet>, now: nat): SortedSet {
    SortedSet(Touch(window, Alive(s, now), now), now + Millis(window + 1))
  }

  function Judge(s: SortedSet, limit: int): Verdict {
    if |s.members| > limit then Limited(|s.members|) else Admitted
  }

  // The sorted set of a key after the calls stamped `h`.
  function KeyState(window: nat, h: seq<nat>): Option<SortedSet> {
    if h == [] then None
    else Some(Next(window, KeyState(window, h[..|h| - 1]), h[|h| - 1]))
  }

  // ---------- The store ----------

  function Get(store: map<string, SortedSet>, key: string): Option<SortedSet> {
    if key in store then Some(store[key]) else None
  }

  function CheckStep(window: nat, store: map<string, SortedSet>, c: Call): (map<string, SortedSet>, Verdict) {
    var s := Next(window, Get(store, c.key), c.now);
    (store[c.key := s], Judge(s, c.limit))
  }

  function RunCalls(window: nat, calls: seq<Call>): map<string, SortedSet> {
    if calls == [] then map[]
    else CheckStep(window, RunCalls(window, calls[..|calls| - 1]), calls[|calls| - 1]).0
  }

  function IpKey(ip: string): string {
    "rl:ip:" + ip
  }

  function TenantKey(tenant: string): string {
    "rl:tenant:" + tenant
  }

  // One request: the IP check, and the tenant's only if the address is within its limit and the
  // request carries a tenant.
  function Serve(window: nat, store: map<string, SortedSet>, perIp: int, perTenant: int, r: Request)
    : (map<string, SortedSet>, Verdict)
  {
    var (store1, v1) := CheckStep(window, store, Call(IpKey(r.ip), perIp, r.ipNow));
    if v1.Limited? || r.tenant.None? || r.tenant.value == "" then (store1, v1)
    else CheckStep(window, store1, Call(TenantKey(r.tenant.value), perTenant, r.tenantNow))
  }

  // ---------- The service ----------

  class SlidingWindowRateLimiter {
    const window: nat
    var store: map<string, SortedSet>

    constructor (window: nat)
      ensures this.window == window && store == map[]
    {
      this.window := window;
      store := map[];
    }

    method Check(key: string, limit: int, now: nat) returns (v: Verdict)
      modifies this
      ensures (store, v) == CheckStep(window, old(store), Call(key, limit, now))
    {
      var windowStart := now - window * 1000;
      var members := if key in store && now <= store[key].expiry then store[key].members else {};
      members := set m | m in members && !(0 <= m <= windowStart);
      members := members + {now};
      assert members == Touch(window, Alive(Get(store, key), now), now);
      var count := |members|;
      store := store[key := SortedSet(members, now + (window + 1) * 1000)];
      if count > limit {
        return Limited(count);
      }
      return Admitted;
    }

    method ApplyRateLimits(r: Request, perIp: int, perTenant: int) returns (v: Verdict)
      modifies this
      ensures (store, v) == Serve(window, old(store), perIp, perTenant, r)
    {
      v := Check("rl:ip:" + r.ip, perIp, r.ipNow);
      if v.Limited? {
        return;
      }
      if r.tenant.Some? && r.tenant.value != "" {
        v := Check("rl:tenant:" + r.tenant.value, perTenant, r.tenantNow);
      }
    }
  }

  // ---------- What the pruned set holds, whatever the order of the stamps ----------

  // The same set without key expiry.
  function Unexpiring(window: nat, h: seq<nat>): set<nat> {
    if h == [] then {} else Touch(window, Unexpiring(window, h[..|h| - 1]), h[|h| - 1])
  }

  lemma {:induction false} MembersExact(window: nat, h: seq<nat>, v: nat)
    ensures v in Unexpiring(window, h) <==>
            exists i :: 0 <= i < |h| && h[i] == v && forall j | i < j < |h| :: v > h[j] - 1000 * window
  {
    if h != [] {
      var n := |h| - 1;
      var g := h[..n];
      MembersExact(window, g, v);
      if v in Unexpiring(window, h) && v != h[n] {
        var i :| 0 <= i < |g| && g[i] == v && forall j | i < j < |g| :: v > g[j] - 1000 * window;
        assert h[i] == v && forall j | i < j < |h| :: v > h[j] - 1000 * window;
      }
      if i :| 0 <= i < n && h[i] == v && forall j | i < j < |h| :: v > h[j] - 1000 * window {
        assert g[i] == v && forall j | i < j < |g| :: v > g[j] - 1000 * window;
      }
    }
  }

  // ---------- The reference: filtering the full history ----------

  ghost predicate NonDecreasing(h: seq<nat>) {
    forall i, j | 0 <= i < j < |h| :: h[i] <= h[j]
  }

  // The distinct stamps of the history in (now - W, now]; `now` itself counts even if W is zero.
  predicate InWindow(window: nat, v: nat, now: nat) {
    v == now || now - 1000 * window < v <= now
  }

  function Window(window: nat, h: seq<nat>, now: nat): set<nat> {
    set i | 0 <= i < |h| && InWindow(window, h[i], now) :: h[i]
  }

  // Pruning the last window gives the next one, and nothing in an expired key is still in it.
  lemma WindowSlides(window: nat, g: seq<nat>, now: nat)
    requires g != [] && NonDecreasing(g + [now])
    ensures var last := g[|g| - 1];
            && Window(window, g + [now], now) == Touch(window, Window(window, g, last), now)
            && (last + 1000 * (window + 1) < now ==> Window(window, g + [now], now) == Touch(window, {}, now))
  {
    var h, last := g + [now], g[|g| - 1];
    assert h[|g| - 1] == last && h[|g|] == now;
    forall v: nat ensures v in Window(window, h, now) <==> v in Touch(window, Window(window, g, last), now) {
      if v in Window(window, h, now) && v != now {
        var i :| 0 <= i < |h| && h[i] == v;
        assert g[i] == v && h[i] <= h[|g| - 1];
        assert v in Window(window, g, last);
      }
      if v in Window(window, g, last) && v > now - 1000 * window {
        var i :| 0 <= i < |g| && g[i] == v;
        assert h[i] == v && h[i] <= h[|g|];
      }
      if v == now {
        assert h[|g|] == v;
      }
    }
  }

  // Under a non-decreasing clock the expiring set is exactly the window of the full history; the
  // expiry of a key is never observable.
  lemma {:induction false} KeyStateIsTheWindow(window: nat, h: seq<nat>)
    requires h != [] && NonDecreasing(h)
    ensures var now := h[|h| - 1];
            KeyState(window, h) == Some(SortedSet(Window(window, h, now), now + 1000 * (window + 1)))
    ensures KeyState(window, h).value.members == Unexpiring(window, h)
  {
    var n := |h| - 1;
    var g, now := h[..n], h[n];
    if g == [] {
      assert Window(window, h, now) == Touch(window, {}, now);
    } else {
      KeyStateIsTheWindow(window, g);
      WindowSlides(window, g, now);
      assert g + [now] == h;
    }
  }

  // ---------- From the store to its keys ----------

  // The stamps of the calls made on one key.
  function KeyHistory(calls: seq<Call>, key: string): seq<nat> {
    if calls == [] then []
    else
      var n := |calls| - 1;
      KeyHistory(calls[..n], key) + if calls[n].key == key then [calls[n].now] else []
  }

  lemma {:induction false} StoreIsPerKey(window: nat, calls: seq<Call>, key: string)
    ensures Get(RunCalls(window, calls), key) == KeyState(window, KeyHistory(calls, key))
  {
    if calls != [] {
      var n := |calls| - 1;
      var g := KeyHistory(calls[..n], key);
      StoreIsPerKey(window, calls[..n], key);
      if calls[n].key == key {
        var h := g + [calls[n].now];
        assert h[..|h| - 1] == g && h[|h| - 1] == calls[n].now;
        assert KeyState(window, h) == Some(Next(window, KeyState(window, g), calls[n].now));
      } else {
        assert KeyHistory(calls, key) == g;
      }
    }
  }

  // The calls of a run carry a clock that never goes back.
  ghost predicate Clocked(calls: seq<Call>) {
    forall i, j | 0 <= i < j < |calls| :: calls[i].now <= calls[j].now
  }

  lemma {:induction false} KeyHistoryIsClocked(calls: seq<Call>, key: string)
    requires Clocked(calls)
    ensures NonDecreasing(KeyHistory(calls, key))
    ensures forall t | t in KeyHistory(calls, key) :: t <= calls[|calls| - 1].now
  {
    if calls != [] {
      var n := |calls| - 1;
      var g, h := KeyHistory(calls[..n], key), KeyHistory(calls, key);
      KeyHistoryIsClocked(calls[..n], key);
      forall t | t in g ensures t <= calls[n].now {
        assert calls[..n] != [] && calls[..n][n - 1] == calls[n - 1];
      }
      forall i, j | 0 <= i < j < |h| ensures h[i] <= h[j] {
        assert h[i] == g[i] && g[i] in g;
      }
    }
  }

  // The limiter refines the reference that keeps every call: its verdict on the last call is whether
  // the distinct stamps of that key in the window exceed the limit.
  lemma VerdictMatchesHistory(window: nat, calls: seq<Call>)
    requires calls != [] && Clocked(calls)
    ensures var n := |calls| - 1;
            var c := calls[n];
            var count := |Window(window, KeyHistory(calls, c.key), c.now)|;
            CheckStep(window, RunCalls(window, calls[..n]), c).1 == if count > c.limit then Limited(count) else Admitted
  {
    var n := |calls| - 1;
    var c := calls[n];
    var h := KeyHistory(calls, c.key);
    StoreIsPerKey(window, calls, c.key);
    KeyHistoryIsClocked(calls, c.key);
    KeyStateIsTheWindow(window, h);
  }

  lemma KeysAreDistinct(a: string, b: string)
    ensures IpKey(a) != TenantKey(b)
    ensures IpKey(a) == IpKey(b) ==> a == b
    ensures TenantKey(a) == TenantKey(b) ==> a == b
  {
    assert IpKey(a)[3] == 'i' && TenantKey(b)[3] == 't';
    assert IpKey(a)[6..] == a && IpKey(b)[6..] == b;
    assert TenantKey(a)[10..] == a && TenantKey(b)[10..] == b;
  }

  // What a check counts on a key: its own stamp, and of a key that has not expired the stamps less than
  // a window older.
  function Counted(window: nat, store: map<string, SortedSet>, key: string, now: nat): set<nat> {
    var kept := if key in store && now <= store[key].expiry then store[key].members else {};
    {now} + set v | v in kept && v > now - 1000 * window
  }

  // One check: it is limited exactly if it counts more than the limit, and then it has counted itself.
  lemma CheckAnswer(window: nat, store: map<string, SortedSet>, c: Call)
    ensures var (store', v) := CheckStep(window, store, c);
            var counted := Counted(window, store, c.key, c.now);
            && v == (if |counted| > c.limit then Limited(|counted|) else Admitted)
            && store' == store[c.key := SortedSet(counted, c.now + 1000 * (window + 1))]
  {
    assert Counted(window, store, c.key, c.now) == Touch(window, Alive(Get(store, c.key), c.now), c.now);
  }

  // A check on one key does not change what another counts.
  lemma CountedApart(window: nat, store: map<string, SortedSet>, key: string, s: SortedSet, other: string, now: nat)
    requires key != other
    ensures Counted(window, store[key := s], other, now) == Counted(window, store, other, now)
  {
  }

  // The IP check comes first, and its refusal is final; the tenant's is made exactly if it passed and
  // the request has a tenant. A check touches its own key alone, whatever it decides.
  lemma ServeAnswer(window: nat, store: map<string, SortedSet>, perIp: int, perTenant: int, r: Request)
    ensures var mine := Counted(window, store, IpKey(r.ip), r.ipNow);
            var store1 := store[IpKey(r.ip) := SortedSet(mine, r.ipNow + 1000 * (window + 1))];
            Serve(window, store, perIp, perTenant, r) ==
              if |mine| > perIp then (store1, Limited(|mine|))
              else if r.tenant.None? || r.tenant.value == "" then (store1, Admitted)
              else
                var key := TenantKey(r.tenant.value);
                var all := Counted(window, store, key, r.tenantNow);
                (store1[key := SortedSet(all, r.tenantNow + 1000 * (window + 1))],
                 if |all| > perTenant then Limited(|all|) else Admitted)
  {
    CheckAnswer(window, store, Call(IpKey(r.ip), perIp, r.ipNow));
    if r.tenant.Some? {
      var key, mine := TenantKey(r.tenant.value), Counted(window, store, IpKey(r.ip), r.ipNow);
      var s := SortedSet(mine, r.ipNow + 1000 * (window + 1));
      KeysAreDistinct(r.ip, r.tenant.value);
      CountedApart(window, store, IpKey(r.ip), s, key, r.tenantNow);
      CheckAnswer(window, store[IpKey(r.ip) := s], Call(key, perTenant, r.tenantNow));
    }
  }

  lemma RunCallsAppend(window: nat, calls: seq<Call>, c: Call)
    ensures RunCalls(window, calls + [c]) == CheckStep(window, RunCalls(window, calls), c).0
  {
    assert (calls + [c])[..|calls|] == calls;
  }
}
