// What every run of the token handlers keeps: families are chains with at most one live token,
// dead families stay dead, revocations are never undone, and reset tokens work once.
module TokenFamilies {
  import opened Prelude
  import opened AuthTokens

  // ---------- Families are chains ----------

  // In issue order: all hashes are distinct and drawn, a family has one user, and only the newest
  // token of a family can be live.
  ghost predicate Chains(w: World) {
    var ts := w.db.tokens;
    && (forall i | 0 <= i < |ts| :: ts[i].hash < w.supply && ts[i].family < w.supply)
    && (forall i, j | 0 <= i < j < |ts| :: ts[i].hash < ts[j].hash)
    && (forall i, j | 0 <= i < j < |ts| && ts[i].family == ts[j].family ::
          ts[i].user == ts[j].user && ts[i].revoked.Some?)
  }

  // Revoking tokens keeps the chains, and so does adding a fresh live token to a family none of whose
  // tokens is live.
  lemma RevokingKeepsChains(w: World, w': World)
    requires Chains(w) && w.supply <= w'.supply
    requires Extends(w.db.tokens, w'.db.tokens) && |w'.db.tokens| == |w.db.tokens|
    ensures Chains(w')
  {
  }

  lemma IssuingKeepsChains(w: World, w': World, t: RefreshToken)
    requires Chains(w) && w'.db.tokens == w.db.tokens + [t]
    requires t.hash == w.supply < w'.supply && t.family <= w.supply
    requires forall i | 0 <= i < |w.db.tokens| && w.db.tokens[i].family == t.family ::
               w.db.tokens[i].user == t.user && w.db.tokens[i].revoked.Some?
    ensures Chains(w')
  {
  }

  lemma RefreshKeepsChains(c: Config, w: World, raw: nat, jwtValid: bool, now: Instant)
    requires Chains(w)
    ensures Chains(RefreshStep(c, w, raw, jwtValid, now).0)
  {
    var (w', r) := RefreshStep(c, w, raw, jwtValid, now);
    if r.Issued? {
      var i := FindToken(w.db.tokens, raw).value;
      var t := w.db.tokens[i];
      var revoked := w.(db := w.db.(tokens := w.db.tokens[i := Revoke(t, now)]));
      RevokingKeepsChains(w, revoked);
      IssuingKeepsChains(revoked, w', Successor(c, w, t.user, t.family, now));
    } else {
      RevokingKeepsChains(w, w');
    }
  }

  lemma StepKeepsChains(c: Config, w: World, e: Event)
    requires Chains(w)
    ensures Chains(Step(c, w, e).0)
  {
    var (w', r) := Step(c, w, e);
    if e.Refresh? {
      RefreshKeepsChains(c, w, e.raw, e.jwtValid, e.now);
    } else if e.Login? && r.Issued? && c.loginCommits {
      IssuingKeepsChains(w, w', w'.db.tokens[|w.db.tokens|]);
    } else {
      StepExtends(c, w, e);
      RevokingKeepsChains(w, w');
    }
  }

  lemma {:induction false} RunKeepsChains(c: Config, w: World, es: seq<Event>)
    requires Chains(w)
    ensures Chains(Run(c, w, es))
    decreases |es|
  {
    if es != [] {
      StepKeepsChains(c, w, es[0]);
      RunKeepsChains(c, Step(c, w, es[0]).0, es[1..]);
    }
  }

  lemma FamilyIsAChain(c: Config, w: World, es: seq<Event>, i: nat, j: nat)
    requires w.db.tokens == []
    requires var ts := Run(c, w, es).db.tokens; i < j < |ts| && ts[i].family == ts[j].family
    ensures var ts := Run(c, w, es).db.tokens;
            ts[i].user == ts[j].user && ts[i].revoked.Some? && ts[i].hash != ts[j].hash
  {
    RunKeepsChains(c, w, es);
  }

  // ---------- Revocation is written once ----------

  // ts' has every row of ts, changed at most by its first revocation.
  ghost predicate Extends(ts: seq<RefreshToken>, ts': seq<RefreshToken>) {
    && |ts| <= |ts'|
    && forall i | 0 <= i < |ts| ::
         ts'[i] == ts[i] || (ts[i].revoked.None? && ts'[i] == ts[i].(revoked := ts'[i].revoked))
  }

  lemma StepExtends(c: Config, w: World, e: Event)
    ensures Extends(w.db.tokens, Step(c, w, e).0.db.tokens) && w.supply <= Step(c, w, e).0.supply
  {
  }

  lemma {:induction false} RunExtends(c: Config, w: World, es: seq<Event>)
    ensures Extends(w.db.tokens, Run(c, w, es).db.tokens) && w.supply <= Run(c, w, es).supply
    decreases |es|
  {
    if es != [] {
      StepExtends(c, w, es[0]);
      RunExtends(c, Step(c, w, es[0]).0, es[1..]);
    }
  }

  lemma {:induction false} RunSplits(c: Config, w: World, es: seq<Event>, k: nat)
    requires k <= |es|
    ensures Run(c, w, es) == Run(c, Run(c, w, es[..k]), es[k..])
    decreases k
  {
    if k > 0 {
      RunSplits(c, Step(c, w, es[0]).0, es[1..], k - 1);
      assert es[..k][1..] == es[1..][..k - 1] && es[1..][k - 1..] == es[k..];
    } else {
      assert es[..0] == [] && es[0..] == es;
    }
  }

  // The state before event k, and what event k answers.
  ghost function Before(c: Config, w: World, es: seq<Event>, k: nat): World
    requires k <= |es|
  {
    Run(c, w, es[..k])
  }

  ghost function Answer(c: Config, w: World, es: seq<Event>, k: nat): Outcome
    requires k < |es|
  {
    Step(c, Before(c, w, es, k), es[k]).1
  }

  lemma LaterIsARun(c: Config, w: World, es: seq<Event>, j: nat, k: nat)
    requires j <= k <= |es|
    ensures Before(c, w, es, k) == Run(c, Before(c, w, es, j), es[j..k])
  {
    assert es[..k][..j] == es[..j] && es[..k][j..] == es[j..k];
    RunSplits(c, w, es[..k], j);
  }

  lemma StepThenRun(c: Config, w: World, es: seq<Event>, j: nat, k: nat)
    requires j < k <= |es|
    ensures Before(c, w, es, k) == Run(c, Step(c, Before(c, w, es, j), es[j]).0, es[j + 1..k])
  {
    LaterIsARun(c, w, es, j, k);
    assert es[j..k][1..] == es[j + 1..k];
  }

  // ---------- One refresh ----------

  lemma FindTokenIsUnique(w: World, i: nat)
    requires Chains(w) && i < |w.db.tokens|
    ensures FindToken(w.db.tokens, w.db.tokens[i].hash) == Some(i)
  {
  }

  // Refresh succeeds exactly on a stored, live, unexpired token of an active user, and that token is
  // then the newest of its family.
  lemma RefreshSucceedsIff(c: Config, w: World, raw: nat, jwtValid: bool, now: Instant)
    requires Chains(w)
    ensures var ts := w.db.tokens;
            Step(c, w, Refresh(raw, jwtValid, now)).1.Issued? <==>
            jwtValid && exists i :: 0 <= i < |ts| && ts[i].hash == raw && ts[i].revoked.None? &&
                                    ts[i].expires >= now && Active(w.db, ts[i].user)
  {
    forall i | 0 <= i < |w.db.tokens| && w.db.tokens[i].hash == raw ensures FindToken(w.db.tokens, raw) == Some(i) {
      FindTokenIsUnique(w, i);
    }
  }

  // All or nothing: the committed rows change only by rotating the presented token into one live
  // successor, or, on reuse, by revoking the presented token's family.
  lemma RefreshIsAllOrNothing(c: Config, w: World, raw: nat, jwtValid: bool, now: Instant)
    requires Chains(w)
    ensures var (w', r) := Step(c, w, Refresh(raw, jwtValid, now));
            var ts, ts' := w.db.tokens, w'.db.tokens;
            && w'.db == w.db.(tokens := ts')
            && (r.Issued? ==> exists i :: 0 <= i < |ts| && ts[i].hash == raw && RotatesTo(ts, i, ts', r.raw, now))
            && (r.Reused? ==> exists i :: 0 <= i < |ts| && ts[i].hash == raw && ts[i].revoked.Some? &&
                                          OnlyFamilyRevoked(ts, ts[i].family, ts', now))
            && (!r.Issued? && !r.Reused? ==> w' == w)
  {
    var (w', r) := Step(c, w, Refresh(raw, jwtValid, now));
    var found := FindToken(w.db.tokens, raw);
    if r.Issued? {
      assert RotatesTo(w.db.tokens, found.value, w'.db.tokens, r.raw, now);
    } else if r.Reused? {
      assert OnlyFamilyRevoked(w.db.tokens, w.db.tokens[found.value].family, w'.db.tokens, now);
    }
  }

  // Token i, the only live one of its family, is revoked; one new token takes its place.
  ghost predicate RotatesTo(ts: seq<RefreshToken>, i: nat, ts': seq<RefreshToken>, raw: nat, now: Instant)
    requires i < |ts|
  {
    var n := |ts|;
    && |ts'| == n + 1
    && (forall j | 0 <= j < n && j != i :: ts'[j] == ts[j])
    && ts[i].revoked.None? && ts'[i] == ts[i].(revoked := Some(now))
    && ts'[n].revoked.None? && ts'[n].hash == raw
    && ts'[n].user == ts[i].user && ts'[n].family == ts[i].family
    && (forall j | 0 <= j < n && ts[j].family == ts[i].family :: j <= i && ts'[j].revoked.Some?)
    && (forall j | 0 <= j < n :: ts[j].hash != raw)
  }

  ghost predicate OnlyFamilyRevoked(ts: seq<RefreshToken>, family: nat, ts': seq<RefreshToken>, now: Instant) {
    && |ts'| == |ts|
    && forall j | 0 <= j < |ts| ::
         ts'[j] == if ts[j].family == family && ts[j].revoked.None? then ts[j].(revoked := Some(now)) else ts[j]
  }

  // ---------- What an access token grants ----------

  lemma {:induction false} GrantedIff(roles: seq<Role>, p: string)
    ensures p in Granted(roles) <==> exists i :: 0 <= i < |roles| && p in roles[i].permissions
  {
    if roles != [] {
      var n := |roles| - 1;
      GrantedIff(roles[..n], p);
      assert forall i | 0 <= i < n :: roles[..n][i] == roles[i];
    }
  }

  // A login or refresh that answers with tokens issues an access token to an active user, of its own
  // tenant, with the roles the user has at that moment: a permission is granted exactly when one of
  // them carries it. If the request commits, the refresh token stored with it is the same user's.
  lemma AccessIsCurrent(c: Config, w: World, e: Event)
    requires Step(c, w, e).1.Issued?
    ensures var (w', r) := Step(c, w, e);
            var a := r.access;
            && (e.Login? || e.Refresh?) && Active(w.db, a.user)
            && var u := w.db.users[a.user];
            && a.tenant == u.tenant
            && |a.roles| == |u.roles| && (forall i | 0 <= i < |u.roles| :: a.roles[i] == u.roles[i].name)
            && (forall p :: p in a.permissions <==> exists i :: 0 <= i < |u.roles| && p in u.roles[i].permissions)
            && (e.now >= 0 ==> a.expires == a.issued + 60 * c.accessMinutes)
            && (e.Refresh? || c.loginCommits ==>
                  exists t :: t in w'.db.tokens && t.hash == r.raw && t.user == a.user && t.revoked.None?)
  {
    var (w', r) := Step(c, w, e);
    var roles := w.db.users[r.access.user].roles;
    forall p: string
      ensures p in r.access.permissions <==> exists i :: 0 <= i < |roles| && p in roles[i].permissions
    {
      GrantedIff(roles, p);
    }
    if e.Refresh? || c.loginCommits {
      assert w'.db.tokens[|w'.db.tokens| - 1] in w'.db.tokens;
    }
  }

  // ---------- Where a token comes from ----------

  // The event that stored the token at position j.
  lemma {:induction false} StoredBy(c: Config, w: World, es: seq<Event>, j: nat) returns (k: nat)
    requires |w.db.tokens| <= j < |Run(c, w, es).db.tokens|
    ensures k < |es|
    ensures |Before(c, w, es, k).db.tokens| == j && |Step(c, Before(c, w, es, k), es[k]).0.db.tokens| == j + 1
    decreases |es|
  {
    var w' := Step(c, w, es[0]).0;
    assert |w'.db.tokens| <= |w.db.tokens| + 1;
    if j < |w'.db.tokens| {
      k := 0;
    } else {
      k := StoredBy(c, w', es[1..], j);
      k := k + 1;
      assert es[..k][1..] == es[1..][..k - 1] && es[..k][0] == es[0];
    }
  }

  // A step that stores a token is a login into a fresh family or the rotation of the newest token
  // of the family.
  lemma StoringStep(c: Config, w: World, e: Event)
    requires Chains(w) && |Step(c, w, e).0.db.tokens| == |w.db.tokens| + 1
    ensures var (w', r) := Step(c, w, e);
            var n := |w.db.tokens|;
            || (e.Login? && w'.db.tokens[n].family == w.supply)
            || (e.Refresh? && r.Issued? && r.raw == w'.db.tokens[n].hash &&
                exists t :: 0 <= t < n && w.db.tokens[t].hash == e.raw &&
                            RotatesTo(w.db.tokens, t, w'.db.tokens, r.raw, e.now))
  {
    if e.Refresh? {
      RefreshIsAllOrNothing(c, w, e.raw, e.jwtValid, e.now);
    }
  }

  // New members of a family come only from rotating its newest token: of two consecutive tokens of a
  // family, the second was issued by the one successful refresh that presented the first.
  lemma RotatedFromPredecessor(c: Config, w: World, es: seq<Event>, i: nat, j: nat) returns (k: nat)
    requires w.db.tokens == []
    requires var ts := Run(c, w, es).db.tokens;
             i < j < |ts| && ts[i].family == ts[j].family && forall m | i < m < j :: ts[m].family != ts[j].family
    ensures k < |es| && es[k].Refresh?
    ensures var ts := Run(c, w, es).db.tokens;
            es[k].raw == ts[i].hash && Answer(c, w, es, k).Issued? && Answer(c, w, es, k).raw == ts[j].hash
  {
    k := StoredBy(c, w, es, j);
    var ts := Run(c, w, es).db.tokens;
    var w1 := Before(c, w, es, k);
    var w2 := Step(c, w1, es[k]).0;
    RunKeepsChains(c, w, es[..k]);
    StoringStep(c, w1, es[k]);
    RunExtends(c, w2, es[k + 1..]);
    StepExtends(c, w1, es[k]);
    StepThenRun(c, w, es, k, |es|);
    assert es[..|es|] == es && es[k + 1..|es|] == es[k + 1..];
    assert forall m: nat | m <= j :: w2.db.tokens[m].family == ts[m].family && w2.db.tokens[m].hash == ts[m].hash;
    assert forall m: nat | m < j :: w1.db.tokens[m].family == ts[m].family && w1.db.tokens[m].hash == ts[m].hash;
  }

  // ---------- Dead families ----------

  ghost predicate Dead(w: World, family: nat) {
    && family < w.supply
    && forall i | 0 <= i < |w.db.tokens| :: w.db.tokens[i].family == family ==> w.db.tokens[i].revoked.Some?
  }

  lemma StepKeepsDead(c: Config, w: World, e: Event, family: nat)
    requires Chains(w) && Dead(w, family)
    ensures Dead(Step(c, w, e).0, family)
  {
  }

  lemma {:induction false} RunKeepsDead(c: Config, w: World, es: seq<Event>, family: nat)
    requires Chains(w) && Dead(w, family)
    ensures Dead(Run(c, w, es), family)
    decreases |es|
  {
    if es != [] {
      StepKeepsDead(c, w, es[0], family);
      StepKeepsChains(c, w, es[0]);
      RunKeepsDead(c, Step(c, w, es[0]).0, es[1..], family);
    }
  }

  // Presenting a revoked token kills its family for the rest of the run.
  lemma ReuseKillsFamily(c: Config, w: World, es: seq<Event>, j: nat, k: nat, i: nat)
    requires Chains(w) && j < k <= |es|
    requires var ts := Before(c, w, es, j).db.tokens; i < |ts| && ts[i].revoked.Some?
    requires es[j].Refresh? && es[j].jwtValid && es[j].raw == Before(c, w, es, j).db.tokens[i].hash
    ensures Answer(c, w, es, j) == Reused
    ensures Dead(Before(c, w, es, k), Before(c, w, es, j).db.tokens[i].family)
  {
    var w1 := Before(c, w, es, j);
    var family := w1.db.tokens[i].family;
    RunKeepsChains(c, w, es[..j]);
    FindTokenIsUnique(w1, i);
    var w2 := Step(c, w1, es[j]).0;
    StepKeepsChains(c, w1, es[j]);
    RunKeepsDead(c, w2, es[j + 1..k], family);
    StepThenRun(c, w, es, j, k);
  }

  lemma RotatedStaysRevoked(c: Config, w: World, es: seq<Event>, i: nat, j: nat) returns (t: nat)
    requires Chains(w) && i < j <= |es|
    requires es[i].Refresh? && Answer(c, w, es, i).Issued?
    ensures var ts, ts' := Before(c, w, es, i).db.tokens, Before(c, w, es, j).db.tokens;
            && t < |ts| <= |ts'| && ts[t].hash == ts'[t].hash == es[i].raw
            && ts[t].family == ts'[t].family && ts'[t].revoked.Some?
  {
    var w1 := Before(c, w, es, i);
    var w2 := Step(c, w1, es[i]).0;
    RunKeepsChains(c, w, es[..i]);
    RefreshIsAllOrNothing(c, w1, es[i].raw, es[i].jwtValid, es[i].now);
    t :| 0 <= t < |w1.db.tokens| && w1.db.tokens[t].hash == es[i].raw &&
         RotatesTo(w1.db.tokens, t, w2.db.tokens, Answer(c, w, es, i).raw, es[i].now);
    RunExtends(c, w2, es[i + 1..j]);
    StepThenRun(c, w, es, i, j);
  }

  // A token rotates at most once, and presenting it again after that kills its family, whoever
  // holds the successor and whatever ran in between.
  lemma TokenRotatesOnce(c: Config, w: World, es: seq<Event>, i: nat, j: nat, k: nat)
    requires Chains(w) && i < j < k <= |es|
    requires es[i].Refresh? && es[j].Refresh? && es[i].raw == es[j].raw
    requires Answer(c, w, es, i).Issued?
    ensures !Answer(c, w, es, j).Issued?
    ensures es[j].jwtValid ==> Answer(c, w, es, j) == Reused
    ensures es[j].jwtValid ==>
              exists t :: t in Before(c, w, es, i).db.tokens && t.hash == es[i].raw &&
                          Dead(Before(c, w, es, k), t.family)
  {
    var t := RotatedStaysRevoked(c, w, es, i, j);
    assert Before(c, w, es, i).db.tokens[t] in Before(c, w, es, i).db.tokens;
    RunKeepsChains(c, w, es[..j]);
    FindTokenIsUnique(Before(c, w, es, j), t);
    if es[j].jwtValid {
      ReuseKillsFamily(c, w, es, j, k, t);
    }
  }

  // ---------- Signing a user out everywhere ----------

  ghost predicate NoneLive(w: World, user: nat) {
    forall i | 0 <= i < |w.db.tokens| :: w.db.tokens[i].user == user ==> w.db.tokens[i].revoked.Some?
  }

  predicate LogsIn(w: World, e: Event, user: nat) {
    e.Login? && Accepts(w.db, e.slug, e.email, e.password, user)
  }

  lemma StepKeepsNoneLive(c: Config, w: World, e: Event, user: nat)
    requires NoneLive(w, user) && !LogsIn(w, e, user)
    ensures NoneLive(Step(c, w, e).0, user)
  {
  }

  ghost predicate NeverLogsIn(c: Config, w: World, es: seq<Event>, user: nat)
    decreases |es|
  {
    es == [] || (!LogsIn(w, es[0], user) && NeverLogsIn(c, Step(c, w, es[0]).0, es[1..], user))
  }

  lemma {:induction false} RunKeepsNoneLive(c: Config, w: World, es: seq<Event>, user: nat, k: nat)
    requires NoneLive(w, user) && NeverLogsIn(c, w, es, user) && k <= |es|
    ensures NoneLive(Run(c, w, es[..k]), user)
    decreases |es|
  {
    if k > 0 {
      StepKeepsNoneLive(c, w, es[0], user);
      RunKeepsNoneLive(c, Step(c, w, es[0]).0, es[1..], user, k - 1);
      assert es[..k][1..] == es[1..][..k - 1];
    }
  }

  // The events that sign `user` out everywhere when they succeed.
  predicate SignsOut(w: World, e: Event, user: nat) {
    || (e.LogoutAll? && e.user == user)
    || (e.ChangePassword? && e.user == user)
    || (e.ResetPassword? &&
        var found := FindReset(w.db.resets, e.raw, e.now);
        found.Some? && w.db.resets[found.value].user == user)
  }

  lemma SigningOutLeavesNoneLive(c: Config, w: World, out: Event, user: nat)
    requires SignsOut(w, out, user) && Step(c, w, out).1 == Done
    ensures NoneLive(Step(c, w, out).0, user)
  {
  }

  lemma NoneLiveRefusesRefresh(c: Config, w: World, e: Event, user: nat, i: nat)
    requires Chains(w) && NoneLive(w, user) && e.Refresh?
    requires i < |w.db.tokens| && w.db.tokens[i].hash == e.raw && w.db.tokens[i].user == user
    ensures !Step(c, w, e).1.Issued?
  {
    FindTokenIsUnique(w, i);
  }

  // After logout-all, a password change or a password reset, no token of the user refreshes until
  // that user logs in again.
  lemma SignedOutUntilLogin(c: Config, w: World, out: Event, es: seq<Event>, user: nat, k: nat)
    requires Chains(w)
    requires SignsOut(w, out, user) && Step(c, w, out).1 == Done
    requires var w1 := Step(c, w, out).0; NeverLogsIn(c, w1, es, user) && k < |es|
    requires es[k].Refresh?
    requires var ts := Before(c, Step(c, w, out).0, es, k).db.tokens;
             exists i :: 0 <= i < |ts| && ts[i].hash == es[k].raw && ts[i].user == user
    ensures !Answer(c, Step(c, w, out).0, es, k).Issued?
  {
    var w1 := Step(c, w, out).0;
    SigningOutLeavesNoneLive(c, w, out, user);
    RunKeepsNoneLive(c, w1, es, user, k);
    StepKeepsChains(c, w, out);
    RunKeepsChains(c, w1, es[..k]);
    var w2 := Before(c, w1, es, k);
    var i :| 0 <= i < |w2.db.tokens| && w2.db.tokens[i].hash == es[k].raw && w2.db.tokens[i].user == user;
    NoneLiveRefusesRefresh(c, w2, es[k], user, i);
  }

  // Reuse revokes one family. It leaves the user no live token exactly when all the user's live tokens
  // are of that family.
  lemma ReuseSignsOutIff(c: Config, w: World, i: nat, now: Instant)
    requires Chains(w) && i < |w.db.tokens| && w.db.tokens[i].revoked.Some?
    ensures var ts := w.db.tokens;
            var (w', r) := Step(c, w, Refresh(ts[i].hash, true, now));
            && r == Reused
            && (NoneLive(w', ts[i].user) <==>
                forall j | 0 <= j < |ts| && ts[j].user == ts[i].user && ts[j].revoked.None? ::
                  ts[j].family == ts[i].family)
  {
    var ts := w.db.tokens;
    FindTokenIsUnique(w, i);
    var ts' := Step(c, w, Refresh(ts[i].hash, true, now)).0.db.tokens;
    assert OnlyFamilyRevoked(ts, ts[i].family, ts', now);
    if j :| 0 <= j < |ts| && ts[j].user == ts[i].user && ts[j].revoked.None? && ts[j].family != ts[i].family {
      assert ts'[j] == ts[j];
    }
  }

  // A tenant with one user, who has not signed in.
  function OneUser(): World {
    World(Database(map["acme" := Tenant(0, true)], map[(0, "a@acme") := 0],
                   map[0 := User(0, true, false, "secret", [], None)], [], []), 0)
  }

  const SIGN_IN: Event := Login("acme", "a@acme", "secret", 0)

  // The k-th token ever issued.
  function TokenOfUser(c: Config, k: nat, family: nat, revoked: Option<Instant>): RefreshToken {
    RefreshToken(k, 0, family, c.refreshDays * DAY, revoked)
  }

  lemma SignedInTwice(c: Config)
    requires c.loginCommits
    ensures var (w1, r1) := Step(c, OneUser(), SIGN_IN);
            var w2 := Step(c, w1, SIGN_IN).0;
            && r1.Issued? && r1.access.user == 0
            && w2.db.tokens == [TokenOfUser(c, 0, 0, None), TokenOfUser(c, 1, 1, None)]
            && w2.supply == 2 && Active(w2.db, 0) && Chains(w2)
  {
    var w1 := Step(c, OneUser(), SIGN_IN).0;
    assert w1.db.tokens == [TokenOfUser(c, 0, 0, None)];
    assert Accepts(w1.db, "acme", "a@acme", "secret", 0);
  }

  // The first session's token rotates, is presented again, and ends its family.
  lemma FirstFamilyEnds(c: Config, w: World)
    requires w.db.tokens == [TokenOfUser(c, 0, 0, None), TokenOfUser(c, 1, 1, None)]
    requires w.supply == 2 && Active(w.db, 0) && Chains(w)
    ensures var w1 := Step(c, w, Refresh(0, true, 0)).0;
            var (w2, r) := Step(c, w1, Refresh(0, true, 0));
            && r == Reused && Chains(w2) && Active(w2.db, 0)
            && |w2.db.tokens| == 3 && w2.db.tokens[1] == TokenOfUser(c, 1, 1, None)
  {
    FindTokenIsUnique(w, 0);
    var w1 := Step(c, w, Refresh(0, true, 0)).0;
    RefreshKeepsChains(c, w, 0, true, 0);
    assert w1.db.tokens[0] == TokenOfUser(c, 0, 0, Some(0)) && w1.db.tokens[1] == w.db.tokens[1];
    FindTokenIsUnique(w1, 0);
    RefreshKeepsChains(c, w1, 0, true, 0);
  }

  lemma SecondFamilyRefreshes(c: Config, w: World)
    requires Chains(w) && Active(w.db, 0) && |w.db.tokens| == 3 && w.db.tokens[1] == TokenOfUser(c, 1, 1, None)
    ensures Step(c, w, Refresh(1, true, 0)).1.Issued? && Step(c, w, Refresh(1, true, 0)).1.access.user == 0
  {
    FindTokenIsUnique(w, 1);
  }

  lemma NextBefore(c: Config, w: World, es: seq<Event>, k: nat)
    requires k < |es|
    ensures Before(c, w, es, k + 1) == Step(c, Before(c, w, es, k), es[k]).0
  {
    StepThenRun(c, w, es, k, k + 1);
    assert es[k + 1..k + 1] == [];
  }

  lemma FirstFour(c: Config, w: World, es: seq<Event>)
    requires |es| >= 4
    ensures Before(c, w, es, 0) == w
    ensures Before(c, w, es, 2) == Step(c, Step(c, w, es[0]).0, es[1]).0
    ensures Before(c, w, es, 3) == Step(c, Before(c, w, es, 2), es[2]).0
    ensures Before(c, w, es, 4) == Step(c, Before(c, w, es, 3), es[3]).0
  {
    NextBefore(c, w, es, 0);
    NextBefore(c, w, es, 1);
    NextBefore(c, w, es, 2);
    NextBefore(c, w, es, 3);
  }

  // A user signed in twice: after reuse of the first session's token, the second still refreshes.
  lemma OtherFamilySurvivesReuse(c: Config, es: seq<Event>)
    requires c.loginCommits
    requires es == [SIGN_IN, SIGN_IN, Refresh(0, true, 0), Refresh(0, true, 0), Refresh(1, true, 0)]
    ensures OneUser().db.tokens == []
    ensures Answer(c, OneUser(), es, 0).Issued? && Answer(c, OneUser(), es, 0).access.user == 0
    ensures Answer(c, OneUser(), es, 3) == Reused
    ensures Answer(c, OneUser(), es, 4).Issued? && Answer(c, OneUser(), es, 4).access.user == 0
  {
    FirstFour(c, OneUser(), es);
    SignedInTwice(c);
    FirstFamilyEnds(c, Before(c, OneUser(), es, 2));
    SecondFamilyRefreshes(c, Before(c, OneUser(), es, 4));
  }

  // ---------- Password-reset tokens ----------

  ghost predicate ResetsDistinct(w: World) {
    var rs := w.db.resets;
    && (forall i | 0 <= i < |rs| :: rs[i].hash < w.supply)
    && (forall i, j | 0 <= i < j < |rs| :: rs[i].hash < rs[j].hash)
  }

  // The reset token has been handed out and every row that carries it is used.
  ghost predicate Spent(w: World, raw: nat) {
    && raw < w.supply
    && forall i | 0 <= i < |w.db.resets| && w.db.resets[i].hash == raw :: w.db.resets[i].used.Some?
  }

  lemma StepKeepsResets(c: Config, w: World, e: Event)
    requires ResetsDistinct(w)
    ensures ResetsDistinct(Step(c, w, e).0)
  {
  }

  lemma StepKeepsSpent(c: Config, w: World, e: Event, raw: nat)
    requires Spent(w, raw)
    ensures Spent(Step(c, w, e).0, raw)
  {
  }

  lemma {:induction false} RunKeepsSpent(c: Config, w: World, es: seq<Event>, raw: nat)
    requires Spent(w, raw)
    ensures Spent(Run(c, w, es), raw)
    decreases |es|
  {
    if es != [] {
      StepKeepsSpent(c, w, es[0], raw);
      RunKeepsSpent(c, Step(c, w, es[0]).0, es[1..], raw);
    }
  }

  lemma {:induction false} RunKeepsResetsDistinct(c: Config, w: World, es: seq<Event>)
    requires ResetsDistinct(w)
    ensures ResetsDistinct(Run(c, w, es))
    decreases |es|
  {
    if es != [] {
      StepKeepsResets(c, w, es[0]);
      RunKeepsResetsDistinct(c, Step(c, w, es[0]).0, es[1..]);
    }
  }

  lemma ResetWorksOnceInTime(c: Config, w: World, es: seq<Event>, i: nat, j: nat)
    requires ResetsDistinct(w) && i < j < |es|
    requires es[i].ResetPassword? && Answer(c, w, es, i) == Done
    ensures exists r :: r in Before(c, w, es, i).db.resets && r.hash == es[i].raw &&
                        r.used.None? && es[i].now < r.expires
    ensures es[j].ResetPassword? && es[j].raw == es[i].raw ==> Answer(c, w, es, j) == InvalidReset
  {
    var w1 := Before(c, w, es, i);
    RunKeepsResetsDistinct(c, w, es[..i]);
    var found := FindReset(w1.db.resets, es[i].raw, es[i].now);
    assert w1.db.resets[found.value] in w1.db.resets;
    var w2 := Step(c, w1, es[i]).0;
    assert Spent(w2, es[i].raw);
    RunKeepsSpent(c, w2, es[i + 1..j], es[i].raw);
    StepThenRun(c, w, es, i, j);
  }

  // ---------- Whether a login is committed ----------

  lemma {:induction false} UncommittedLoginsLeaveNoToken(c: Config, w: World, es: seq<Event>)
    requires !c.loginCommits && w.db.tokens == []
    ensures Run(c, w, es).db.tokens == []
    decreases |es|
  {
    if es != [] {
      UncommittedLoginsLeaveNoToken(c, Step(c, w, es[0]).0, es[1..]);
    }
  }

  // From an empty token table some refresh of some run succeeds if and only if logins are committed.
  lemma SessionsWorkIffLoginCommits(c: Config)
    ensures c.loginCommits <==>
            exists w: World, es: seq<Event>, k: nat :: w.db.tokens == [] && RefreshSucceeds(c, w, es, k)
  {
    if c.loginCommits {
      var w := OneUser();
      var login := Login("acme", "a@acme", "secret", 0);
      var es := [login, Refresh(0, true, 0)];
      assert es[..1] == [login];
      assert Run(c, w, es[..1]) == Step(c, w, login).0;
      assert FindToken(Step(c, w, login).0.db.tokens, 0) == Some(0);
      assert RefreshSucceeds(c, w, es, 1);
    } else {
      forall w: World, es: seq<Event>, k: nat | w.db.tokens == [] && RefreshSucceeds(c, w, es, k) ensures false {
        UncommittedLoginsLeaveNoToken(c, w, es[..k]);
      }
    }
  }

  ghost predicate RefreshSucceeds(c: Config, w: World, es: seq<Event>, k: nat) {
    k < |es| && es[k].Refresh? && Answer(c, w, es, k).Issued?
  }
}
