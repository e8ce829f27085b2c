// What each authentication request is answered and what it stores, read off the tables alone.
module AuthAnswers {
  import opened Prelude
  import opened AuthTokens
  import opened TokenFamilies

  // A login succeeds exactly with the password of an active, undeleted user of an active tenant. Its
  // access token is that user's, and what it stores is one live token of a family of its own, good
  // for the configured days, and the instant of the login.
  lemma LoginSucceedsIff(c: Config, w: World, slug: string, email: string, password: string, now: Instant)
    ensures var (w', r) := Step(c, w, Login(slug, email, password, now));
            var db := w.db;
            && (r.Issued? <==>
                  && slug in db.tenants && db.tenants[slug].active
                  && (db.tenants[slug].id, email) in db.emails
                  && var user := db.emails[(db.tenants[slug].id, email)];
                     user in db.users && db.users[user].active && !db.users[user].deleted
                     && db.users[user].password == password)
            && (!r.Issued? ==> (w', r) == (w, BadCredentials))
            && (r.Issued? ==>
                  var user := db.emails[(db.tenants[slug].id, email)];
                  var token := RefreshToken(w.supply, user, w.supply, now + 86_400_000_000 * c.refreshDays, None);
                  && r.access.user == user && r.raw == w.supply && w'.supply == w.supply + 1
                  && (!c.loginCommits ==> w'.db == db)
                  && (c.loginCommits ==>
                        w'.db == db.(users := db.users[user := db.users[user].(lastLogin := Some(now))],
                                     tokens := db.tokens + [token])))
  {
  }

  // A refresh is answered by the one row that carries the presented token.
  lemma RefreshAnswer(c: Config, w: World, i: nat, jwtValid: bool, now: Instant)
    requires Chains(w) && i < |w.db.tokens|
    ensures var t := w.db.tokens[i];
            var r := Step(c, w, Refresh(t.hash, jwtValid, now)).1;
            && (r == BadJwt <==> !jwtValid)
            && (r == Reused <==> jwtValid && t.revoked.Some?)
            && (r == Expired <==> jwtValid && t.revoked.None? && t.expires < now)
            && (r == InactiveUser <==>
                  && jwtValid && t.revoked.None? && now <= t.expires
                  && !(t.user in w.db.users && w.db.users[t.user].active))
            && (r.Issued? <==>
                  && jwtValid && t.revoked.None? && now <= t.expires
                  && t.user in w.db.users && w.db.users[t.user].active)
  {
    FindTokenIsUnique(w, i);
  }

  lemma UnknownTokenIff(c: Config, w: World, raw: nat, jwtValid: bool, now: Instant)
    ensures Step(c, w, Refresh(raw, jwtValid, now)).1 == UnknownToken <==>
            jwtValid && forall i | 0 <= i < |w.db.tokens| :: w.db.tokens[i].hash != raw
  {
    var found := FindToken(w.db.tokens, raw);
    if found.Some? {
      assert w.db.tokens[found.value].hash == raw;
    }
  }

  // A successful refresh revokes the presented row at that instant and stores a live successor of the
  // same user and family, good for the configured days from now; no other table changes.
  lemma RefreshStores(c: Config, w: World, i: nat, jwtValid: bool, now: Instant)
    requires Chains(w) && i < |w.db.tokens|
    requires Step(c, w, Refresh(w.db.tokens[i].hash, jwtValid, now)).1.Issued?
    ensures var t := w.db.tokens[i];
            var (w', r) := Step(c, w, Refresh(t.hash, jwtValid, now));
            && r.access.user == t.user && r.raw == w.supply && w'.supply == w.supply + 1
            && w'.db == w.db.(tokens :=
                 w.db.tokens[i := t.(revoked := Some(now))]
                 + [RefreshToken(w.supply, t.user, t.family, now + 86_400_000_000 * c.refreshDays, None)])
  {
    FindTokenIsUnique(w, i);
  }

  // The claims of an access token that carry time: whole seconds of the instant, and the configured
  // minutes after it.
  lemma AccessIsTimed(c: Config, w: World, e: Event)
    requires Step(c, w, e).1.Issued? && e.now >= 0
    ensures var a := Step(c, w, e).1.access;
            && 1_000_000 * a.issued <= e.now < 1_000_000 * (a.issued + 1)
            && a.expires == a.issued + 60 * c.accessMinutes
  {
  }

  // Logging out revokes the presented token if it is live. It is always answered the same.
  lemma LogoutAnswer(c: Config, w: World, raw: nat, now: Instant)
    requires Chains(w)
    ensures var (w', r) := Step(c, w, Logout(raw, now));
            var ts, ts' := w.db.tokens, w'.db.tokens;
            && r == Done && w' == w.(db := w.db.(tokens := ts')) && |ts'| == |ts|
            && forall i | 0 <= i < |ts| ::
                 ts'[i] == if ts[i].hash == raw && ts[i].revoked.None? then ts[i].(revoked := Some(now)) else ts[i]
  {
    forall i | 0 <= i < |w.db.tokens| && w.db.tokens[i].hash == raw
      ensures FindToken(w.db.tokens, raw) == Some(i)
    {
      FindTokenIsUnique(w, i);
    }
  }

  // Of the token rows, exactly the user's live ones are revoked, at that instant.
  ghost predicate UserRevoked(ts: seq<RefreshToken>, user: nat, now: Instant, ts': seq<RefreshToken>) {
    && |ts'| == |ts|
    && forall i | 0 <= i < |ts| ::
         ts'[i] == if ts[i].user == user && ts[i].revoked.None? then ts[i].(revoked := Some(now)) else ts[i]
  }

  lemma LogoutAllAnswer(c: Config, w: World, user: nat, now: Instant)
    ensures var (w', r) := Step(c, w, LogoutAll(user, now));
            && (r == Done <==> user in w.db.users && w.db.users[user].active)
            && (r != Done ==> (w', r) == (w, NotAuthenticated))
            && (r == Done ==>
                  && w' == w.(db := w.db.(tokens := w'.db.tokens))
                  && UserRevoked(w.db.tokens, user, now, w'.db.tokens))
  {
  }

  lemma ChangePasswordAnswer(c: Config, w: World, user: nat, current: string, password: string, now: Instant)
    ensures var (w', r) := Step(c, w, ChangePassword(user, current, password, now));
            var known := user in w.db.users && w.db.users[user].active;
            && (r == NotAuthenticated <==> !known)
            && (r == WrongPassword <==> known && w.db.users[user].password != current)
            && (r == Done <==> known && w.db.users[user].password == current)
            && (r != Done ==> w' == w)
            && (r == Done ==>
                  && w' == w.(db := w.db.(users := w.db.users[user := w.db.users[user].(password := password)],
                                          tokens := w'.db.tokens))
                  && UserRevoked(w.db.tokens, user, now, w'.db.tokens))
  {
  }

  // A reset token is sent to an undeleted user of the tenant, active or not, and lives one hour.
  lemma ForgotPasswordAnswer(c: Config, w: World, slug: string, email: string, now: Instant)
    ensures var (w', r) := Step(c, w, ForgotPassword(slug, email, now));
            var db := w.db;
            && (r.ResetIssued? <==>
                  && slug in db.tenants && (db.tenants[slug].id, email) in db.emails
                  && var user := db.emails[(db.tenants[slug].id, email)];
                     user in db.users && !db.users[user].deleted)
            && (!r.ResetIssued? ==> (w', r) == (w, NothingSent))
            && (r.ResetIssued? ==>
                  var user := db.emails[(db.tenants[slug].id, email)];
                  && r.raw == w.supply && w'.supply == w.supply + 1
                  && w'.db == db.(resets := db.resets + [ResetToken(w.supply, user, now + 3_600_000_000, None)]))
  {
  }

  // A reset is decided by the one row that carries the token: it must be unused and not yet expired,
  // and its user stored. Then the password, the mark and the revocations are stored together.
  lemma ResetPasswordAnswer(c: Config, w: World, i: nat, password: string, now: Instant)
    requires ResetsDistinct(w) && i < |w.db.resets|
    ensures var t := w.db.resets[i];
            var (w', r) := Step(c, w, ResetPassword(t.hash, password, now));
            && (r == InvalidReset <==> t.used.Some? || t.expires <= now)
            && (r == UserNotFound <==> t.used.None? && now < t.expires && t.user !in w.db.users)
            && (r == Done <==> t.used.None? && now < t.expires && t.user in w.db.users)
            && (r != Done ==> w' == w)
            && (r == Done ==>
                  && w' == w.(db := w.db.(users := w.db.users[t.user := w.db.users[t.user].(password := password)],
                                          resets := w.db.resets[i := t.(used := Some(now))],
                                          tokens := w'.db.tokens))
                  && UserRevoked(w.db.tokens, t.user, now, w'.db.tokens))
  {
    var found := FindReset(w.db.resets, w.db.resets[i].hash, now);
    assert found.Some? ==> found.value == i;
  }

  lemma UnknownResetIsInvalid(c: Config, w: World, raw: nat, password: string, now: Instant)
    requires forall i | 0 <= i < |w.db.resets| :: w.db.resets[i].hash != raw
    ensures Step(c, w, ResetPassword(raw, password, now)) == (w, InvalidReset)
  {
  }
}
