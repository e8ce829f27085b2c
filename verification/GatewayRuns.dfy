// Runs of the gateway: the two checks of a request are separate steps, and other requests run in
// between.
module GatewayRuns {
  import opened Prelude
  import opened RateLimit
  import opened LateCalls

  // A request arrives and makes its IP check; if that passes and it carries a tenant it waits for
  // its second check, which may come after any number of other steps. Requests are numbered by arrival.
  datatype Event =
    | Arrive(ip: string, tenant: Option<string>, now: nat)
    | Proceed(request: nat, now: nat)

  datatype Gateway = Gateway(store: map<string, SortedSet>, arrived: nat, waiting: map<nat, string>)

  datatype Limits = Limits(window: nat, perIp: nat, perTenant: nat)

  const START: Gateway := Gateway(map[], 0, map[])

  // The limiter call a step makes, if any.
  function CallOf(l: Limits, g: Gateway, e: Event): Option<Call> {
    match e
    case Arrive(ip, _, now) => Some(Call(IpKey(ip), l.perIp, now))
    case Proceed(r, now) => if r in g.waiting then Some(Call(TenantKey(g.waiting[r]), l.perTenant, now)) else None
  }

  function Step(l: Limits, g: Gateway, e: Event): (Gateway, Option<Verdict>) {
    var call := CallOf(l, g, e);
    if call.None? then (g, None)
    else
      var (store, v) := CheckStep(l.window, g.store, call.value);
      match e
      case Arrive(_, tenant, _) =>
        var waits := v.Admitted? && tenant.Some? && tenant.value != "";
        (Gateway(store, g.arrived + 1, if waits then g.waiting[g.arrived := tenant.value] else g.waiting), Some(v))
      case Proceed(r, _) =>
        (Gateway(store, g.arrived, map k | k in g.waiting && k != r :: g.waiting[k]), Some(v))
  }

  function Run(l: Limits, es: seq<Event>): Gateway {
    if es == [] then START else Step(l, Run(l, es[..|es| - 1]), es[|es| - 1]).0
  }

  function CallsOf(l: Limits, es: seq<Event>): seq<Call> {
    if es == [] then []
    else
      var call := CallOf(l, Run(l, es[..|es| - 1]), es[|es| - 1]);
      CallsOf(l, es[..|es| - 1]) + if call.Some? then [call.value] else []
  }

  // One request served with nothing in between is its two steps in a row.
  lemma ServeIsTwoSteps(l: Limits, g: Gateway, r: Request)
    requires g.arrived !in g.waiting
    ensures var (g1, v1) := Step(l, g, Arrive(r.ip, r.tenant, r.ipNow));
            var (g2, v2) := Step(l, g1, Proceed(g.arrived, r.tenantNow));
            Serve(l.window, g.store, l.perIp, l.perTenant, r) == (g2.store, if v2.Some? then v2.value else v1.value)
  {
  }

  // A step changes the store by its limiter call, if it makes one.
  lemma StepStore(l: Limits, g: Gateway, e: Event)
    ensures var call := CallOf(l, g, e);
            Step(l, g, e).0.store == if call.Some? then CheckStep(l.window, g.store, call.value).0 else g.store
  {
  }

  // The run and its calls after one more step.
  lemma Unfold(l: Limits, es: seq<Event>)
    requires es != []
    ensures var n := |es| - 1;
            var call := CallOf(l, Run(l, es[..n]), es[n]);
            && Run(l, es) == Step(l, Run(l, es[..n]), es[n]).0
            && CallsOf(l, es) == CallsOf(l, es[..n]) + if call.Some? then [call.value] else []
  {
  }

  lemma {:induction false} StoreIsOfCalls(l: Limits, es: seq<Event>)
    ensures Run(l, es).store == RunCalls(l.window, CallsOf(l, es))
  {
    if es != [] {
      var n := |es| - 1;
      var g, before := Run(l, es[..n]), CallsOf(l, es[..n]);
      StoreIsOfCalls(l, es[..n]);
      Unfold(l, es);
      StepStore(l, g, es[n]);
      var call := CallOf(l, g, es[n]);
      if call.Some? {
        RunCallsAppend(l.window, before, call.value);
      } else {
        assert CallsOf(l, es) == before;
      }
    }
  }

  // ---------- What each key sees ----------

  // The arrivals from an address.
  function IpStamps(es: seq<Event>, ip: string): seq<nat> {
    if es == [] then []
    else
      var n := |es| - 1;
      IpStamps(es[..n], ip) + if es[n].Arrive? && es[n].ip == ip then [es[n].now] else []
  }

  // The step is the second check of a request of this tenant.
  predicate SecondCheck(g: Gateway, e: Event, tenant: string) {
    e.Proceed? && e.request in g.waiting && g.waiting[e.request] == tenant
  }

  // The second checks of a tenant's waiting requests.
  function TenantStamps(l: Limits, es: seq<Event>, tenant: string): seq<nat> {
    if es == [] then []
    else
      var n := |es| - 1;
      TenantStamps(l, es[..n], tenant) + if SecondCheck(Run(l, es[..n]), es[n], tenant) then [es[n].now] else []
  }

  lemma KeyHistoryAppend(calls: seq<Call>, c: Call, key: string)
    ensures KeyHistory(calls + [c], key) == KeyHistory(calls, key) + if c.key == key then [c.now] else []
  {
    assert (calls + [c])[..|calls|] == calls;
  }

  // Which keys the call of a step is on.
  lemma CallIsOnKey(l: Limits, g: Gateway, e: Event, ip: string, tenant: string)
    ensures var call := CallOf(l, g, e);
            && (call.Some? && call.value.key == IpKey(ip) <==> e.Arrive? && e.ip == ip)
            && (call.Some? && call.value.key == TenantKey(tenant)
                <==> SecondCheck(g, e, tenant))
            && (call.Some? ==> call.value.now == e.now)
            && (call.Some? && call.value.key == IpKey(ip) ==> call.value.limit == l.perIp)
            && (call.Some? && call.value.key == TenantKey(tenant) ==> call.value.limit == l.perTenant)
  {
    match e {
      case Arrive(from, _, _) =>
        KeysAreDistinct(from, ip);
        KeysAreDistinct(from, tenant);
      case Proceed(r, _) =>
        if r in g.waiting {
          KeysAreDistinct(ip, g.waiting[r]);
          KeysAreDistinct(g.waiting[r], tenant);
        }
    }
  }

  // An IP key sees every arrival from its address; a tenant key sees the second checks of its
  // tenant's waiting requests, and nothing else, however the steps interleave.
  lemma {:induction false} KeysSeeTheirRequests(l: Limits, es: seq<Event>, ip: string, tenant: string)
    ensures KeyHistory(CallsOf(l, es), IpKey(ip)) == IpStamps(es, ip)
    ensures KeyHistory(CallsOf(l, es), TenantKey(tenant)) == TenantStamps(l, es, tenant)
  {
    if es != [] {
      var n := |es| - 1;
      KeysSeeTheirRequests(l, es[..n], ip, tenant);
      var g, before := Run(l, es[..n]), CallsOf(l, es[..n]);
      var call := CallOf(l, g, es[n]);
      Unfold(l, es);
      CallIsOnKey(l, g, es[n], ip, tenant);
      if call.Some? {
        KeyHistoryAppend(before, call.value, IpKey(ip));
        KeyHistoryAppend(before, call.value, TenantKey(tenant));
      } else {
        assert CallsOf(l, es) == before;
      }
    }
  }

  lemma TenantSetIgnoresRefusedRequests(l: Limits, es: seq<Event>, tenant: string)
    ensures Get(Run(l, es).store, TenantKey(tenant)) == KeyState(l.window, TenantStamps(l, es, tenant))
  {
    StoreIsOfCalls(l, es);
    KeysSeeTheirRequests(l, es, "", tenant);
    StoreIsPerKey(l.window, CallsOf(l, es), TenantKey(tenant));
  }

  // ---------- Who waits has passed ----------

  // The step is the arrival of request r, with this tenant, and its IP check admits it.
  predicate Passes(l: Limits, g: Gateway, e: Event, r: nat, tenant: string) {
    && e.Arrive? && g.arrived == r && e.tenant == Some(tenant) && tenant != ""
    && Step(l, g, e).1 == Some(Admitted)
  }

  // A request that waits after a step did so before it, or has just passed.
  lemma StepWaiting(l: Limits, g: Gateway, e: Event, r: nat)
    requires forall k | k in g.waiting :: k < g.arrived
    ensures var g' := Step(l, g, e).0;
            && g.arrived <= g'.arrived
            && (r in g'.waiting ==>
                  || (r in g.waiting && g'.waiting[r] == g.waiting[r])
                  || Passes(l, g, e, r, g'.waiting[r]))
            && (e.Proceed? && e.request == r ==> r !in g'.waiting)
            && (r < g.arrived && r !in g.waiting ==> r !in g'.waiting)
            && forall k | k in g'.waiting :: k < g'.arrived
  {
  }

  lemma {:induction false} WaitingHasArrived(l: Limits, es: seq<Event>)
    ensures forall r | r in Run(l, es).waiting :: r < Run(l, es).arrived
  {
    if es != [] {
      var n := |es| - 1;
      WaitingHasArrived(l, es[..n]);
      StepWaiting(l, Run(l, es[..n]), es[n], 0);
    }
  }

  lemma {:induction false} WaitingHasPassed(l: Limits, es: seq<Event>, r: nat) returns (a: nat)
    requires r in Run(l, es).waiting
    ensures a < |es| && Passes(l, Run(l, es[..a]), es[a], r, Run(l, es).waiting[r])
  {
    var n := |es| - 1;
    var g := Run(l, es[..n]);
    WaitingHasArrived(l, es[..n]);
    StepWaiting(l, g, es[n], r);
    if r in g.waiting && g.waiting[r] == Run(l, es).waiting[r] {
      a := WaitingHasPassed(l, es[..n], r);
      assert es[..n][..a] == es[..a];
    } else {
      a := n;
    }
  }

  // Every second check is of a request whose IP check passed earlier in the run.
  lemma TenantChecksHavePassed(l: Limits, es: seq<Event>, k: nat, tenant: string)
    requires k < |es| && SecondCheck(Run(l, es[..k]), es[k], tenant)
    ensures exists a: nat :: a < k && Passes(l, Run(l, es[..a]), es[a], es[k].request, tenant)
  {
    var a := WaitingHasPassed(l, es[..k], es[k].request);
    assert es[..k][..a] == es[..a];
  }

  // A number that has arrived and no longer waits never waits again.
  lemma {:induction false} NeverWaitsAgain(l: Limits, es: seq<Event>, k: nat, r: nat)
    requires k <= |es| && r < Run(l, es[..k]).arrived && r !in Run(l, es[..k]).waiting
    ensures r < Run(l, es).arrived && r !in Run(l, es).waiting
    decreases |es|
  {
    if k == |es| {
      assert es[..k] == es;
    } else {
      var n := |es| - 1;
      assert es[..n][..k] == es[..k];
      NeverWaitsAgain(l, es[..n], k, r);
      WaitingHasArrived(l, es[..n]);
      StepWaiting(l, Run(l, es[..n]), es[n], r);
    }
  }

  // And each request makes its second check at most once.
  lemma TenantCheckedOnce(l: Limits, es: seq<Event>, j: nat, k: nat, tenant: string, tenant': string)
    requires j < k < |es|
    requires SecondCheck(Run(l, es[..j]), es[j], tenant) && SecondCheck(Run(l, es[..k]), es[k], tenant')
    ensures es[j].request != es[k].request
  {
    var r := es[j].request;
    WaitingHasArrived(l, es[..j]);
    StepWaiting(l, Run(l, es[..j]), es[j], r);
    assert es[..j + 1][..j] == es[..j];
    assert es[..k][..j + 1] == es[..j + 1];
    NeverWaitsAgain(l, es[..k], j + 1, r);
  }

  // ---------- The limits over runs ----------

  // Steps are in the order in which the server executes them, and `now` is when the gateway read its
  // clock for the step: a step is overtaken only by steps stamped at most `skew` milliseconds later.
  ghost predicate NearlyInOrder(es: seq<Event>, skew: nat) {
    forall i, j | 0 <= i < j < |es| :: es[i].now <= es[j].now + skew
  }

  // Under a clock that never goes back, the time from reading it to the server bounds the skew.
  lemma DelayBoundsSkew(es: seq<Event>, served: seq<nat>, delay: nat)
    requires |served| == |es| && forall i, j | 0 <= i < j < |served| :: served[i] <= served[j]
    requires forall i | 0 <= i < |es| :: es[i].now <= served[i] <= es[i].now + delay
    ensures NearlyInOrder(es, delay)
  {
    forall i, j | 0 <= i < j < |es| ensures es[i].now <= es[j].now + delay {
      assert es[i].now <= served[i] <= served[j] <= es[j].now + delay;
    }
  }

  lemma {:induction false} CallIsOfStep(l: Limits, es: seq<Event>, i: nat)
    requires i < |CallsOf(l, es)|
    ensures exists k :: 0 <= k < |es| && es[k].now == CallsOf(l, es)[i].now
  {
    var n := |es| - 1;
    Unfold(l, es);
    CallIsOnKey(l, Run(l, es[..n]), es[n], "", "");
    if i < |CallsOf(l, es[..n])| {
      CallIsOfStep(l, es[..n], i);
      var k :| 0 <= k < n && es[..n][k].now == CallsOf(l, es)[i].now;
      assert es[k].now == CallsOf(l, es)[i].now;
    } else {
      assert es[n].now == CallsOf(l, es)[i].now;
    }
  }

  lemma {:induction false} CallsAreNearlyClocked(l: Limits, es: seq<Event>, skew: nat)
    requires NearlyInOrder(es, skew)
    ensures NearlyClocked(CallsOf(l, es), skew)
  {
    if es != [] {
      var n := |es| - 1;
      var before, calls := CallsOf(l, es[..n]), CallsOf(l, es);
      CallsAreNearlyClocked(l, es[..n], skew);
      Unfold(l, es);
      CallIsOnKey(l, Run(l, es[..n]), es[n], "", "");
      forall i, j | 0 <= i < j < |calls| ensures calls[i].now <= calls[j].now + skew {
        assert calls[i] == before[i];
        CallIsOfStep(l, es[..n], i);
      }
    }
  }

  lemma {:induction false} CallsCarryTheirLimit(l: Limits, es: seq<Event>, ip: string, tenant: string)
    ensures forall i | 0 <= i < |CallsOf(l, es)| ::
              && (CallsOf(l, es)[i].key == IpKey(ip) ==> CallsOf(l, es)[i].limit == l.perIp)
              && (CallsOf(l, es)[i].key == TenantKey(tenant) ==> CallsOf(l, es)[i].limit == l.perTenant)
  {
    if es != [] {
      var n := |es| - 1;
      CallsCarryTheirLimit(l, es[..n], ip, tenant);
      Unfold(l, es);
      CallIsOnKey(l, Run(l, es[..n]), es[n], ip, tenant);
    }
  }

  // In every run of the gateway whose checks reach the server out of order by at most a second, the
  // admissions of any address and of any tenant are bounded in any window.
  lemma GatewayAdmissionIsBounded(l: Limits, es: seq<Event>, skew: nat, ip: string, tenant: string, end: nat)
    requires NearlyInOrder(es, skew) && skew <= 1000
    ensures Bounded(l.window, l.perIp, skew, AdmittedOnKey(l.window, CallsOf(l, es), IpKey(ip), end), end)
    ensures Bounded(l.window, l.perTenant, skew, AdmittedOnKey(l.window, CallsOf(l, es), TenantKey(tenant), end), end)
  {
    CallsAreNearlyClocked(l, es, skew);
    CallsCarryTheirLimit(l, es, ip, tenant);
    KeyAdmissionIsBounded(l.window, CallsOf(l, es), IpKey(ip), l.perIp, skew, end);
    KeyAdmissionIsBounded(l.window, CallsOf(l, es), TenantKey(tenant), l.perTenant, skew, end);
  }

  // Requests without a tenant from one address.
  function Arrivals(ip: string, h: seq<nat>): seq<Event> {
    seq(|h|, i requires 0 <= i < |h| => Arrive(ip, None, h[i]))
  }

  lemma LastArrival(l: Limits, ip: string, h: seq<nat>)
    requires h != []
    ensures var n := |h| - 1;
            CallsOf(l, Arrivals(ip, h)) == CallsOf(l, Arrivals(ip, h[..n])) + [Call(IpKey(ip), l.perIp, h[n])]
  {
    var n, es := |h| - 1, Arrivals(ip, h);
    Unfold(l, es);
    assert es[..n] == Arrivals(ip, h[..n]) && es[n] == Arrive(ip, None, h[n]);
  }

  lemma {:induction false} CallsOfArrivals(l: Limits, ip: string, h: seq<nat>)
    ensures CallsOf(l, Arrivals(ip, h)) == CallsAt(IpKey(ip), l.perIp, h)
  {
    if h == [] {
      assert Arrivals(ip, h) == [];
    } else {
      var n := |h| - 1;
      CallsOfArrivals(l, ip, h[..n]);
      LastArrival(l, ip, h);
      LastCallAt(IpKey(ip), l.perIp, h);
    }
  }

  // The order matters: with one request overtaken by two milliseconds, an address is admitted in one
  // millisecond more than its limit.
  lemma OvertakenArrivalExceedsTheLimit(l: Limits, ip: string) returns (es: seq<Event>, end: nat)
    requires 2 <= l.perIp < 1000 * l.window
    ensures NearlyInOrder(es, 2)
    ensures |AdmittedOnKey(l.window, CallsOf(l, es), IpKey(ip), end)| == l.perIp + 1
  {
    var h;
    h, end := LateCallExceedsTheLimit(l.window, l.perIp);
    es := Arrivals(ip, h);
    CallsOfArrivals(l, ip, h);
    AdmittedOnOneKey(l.window, IpKey(ip), l.perIp, h, end);
  }
}
