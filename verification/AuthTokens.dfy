// Refresh-token rotation with families, password-reset tokens, and the database session they
// run in. Every handler is one session: it works on its own copy of the committed tables and
// either commits that copy or loses it.
module AuthTokens {
  import opened Prelude

  type Instant = int
  const DAY: int := 86_400_000_000
  const RESET_LIFETIME: int := 3_600_000_000
  const SECOND: int := 1_000_000

  datatype Tenant = Tenant(id: nat, active: bool)
  datatype Role = Role(name: string, permissions: seq<string>)
  datatype User = User(
    tenant: nat, active: bool, deleted: bool, password: string, roles: seq<Role>, lastLogin: Option<Instant>)

  // What an access token says. Its instants are whole seconds and its permissions have no order.
  datatype Access = Access(
    user: nat, tenant: nat, roles: seq<string>, permissions: set<string>, issued: int, expires: int)

  // Hashing is injective, so a raw token and its stored hash are the same number. Rows keep issue order.
  datatype RefreshToken = RefreshToken(hash: nat, user: nat, family: nat, expires: Instant, revoked: Option<Instant>)
  datatype ResetToken = ResetToken(hash: nat, user: nat, expires: Instant, used: Option<Instant>)

  datatype Database = Database(
    tenants: map<string, Tenant>,       // by slug
    emails: map<(nat, string), nat>,    // the unique index on (tenant, email)
    users: map<nat, User>,
    tokens: seq<RefreshToken>,
    resets: seq<ResetToken>)

  // `supply` is the source of random tokens and identifiers; a rollback does not put numbers back.
  datatype World = World(db: Database, supply: nat)

  // `loginCommits` is false for the request session the service deploys and true for the intended one.
  datatype Config = Config(accessMinutes: nat, refreshDays: nat, loginCommits: bool)

  datatype Event =
    | Login(slug: string, email: string, password: string, now: Instant)
    | Refresh(raw: nat, jwtValid: bool, now: Instant)
    | Logout(raw: nat, now: Instant)
    | LogoutAll(user: nat, now: Instant)
    | ChangePassword(user: nat, current: string, password: string, now: Instant)
    | ForgotPassword(slug: string, email: string, now: Instant)
    | ResetPassword(raw: nat, password: string, now: Instant)
    | Administer(tenants: map<string, Tenant>, emails: map<(nat, string), nat>, users: map<nat, User>)

  datatype Outcome =
    | Done
    | Issued(access: Access, raw: nat)
    | ResetIssued(raw: nat)
    | NothingSent
    | BadCredentials
    | BadJwt
    | UnknownToken
    | Reused
    | Expired
    | InactiveUser
    | NotAuthenticated
    | WrongPassword
    | InvalidReset
    | UserNotFound

  // ---------- The token tables ----------

  function FindToken(tokens: seq<RefreshToken>, hash: nat): (r: Option<nat>)
    ensures r.Some? ==> r.value < |tokens| && tokens[r.value].hash == hash
    ensures r.None? ==> forall i | 0 <= i < |tokens| :: tokens[i].hash != hash
  {
    if tokens == [] then None
    else
      var n := |tokens| - 1;
      if tokens[n].hash == hash then Some(n) else FindToken(tokens[..n], hash)
  }

  function FindReset(resets: seq<ResetToken>, hash: nat, now: Instant): (r: Option<nat>)
    ensures r.Some? ==> r.value < |resets| && resets[r.value].hash == hash && Usable(resets[r.value], now)
    ensures r.None? ==> forall i | 0 <= i < |resets| :: resets[i].hash == hash ==> !Usable(resets[i], now)
  {
    if resets == [] then None
    else
      var n := |resets| - 1;
      if resets[n].hash == hash && Usable(resets[n], now) then Some(n) else FindReset(resets[..n], hash, now)
  }

  predicate Usable(r: ResetToken, now: Instant) {
    r.used.None? && r.expires > now
  }

  function Revoke(t: RefreshToken, now: Instant): RefreshToken {
    t.(revoked := Some(now))
  }

  function RevokeFamily(tokens: seq<RefreshToken>, family: nat, now: Instant): seq<RefreshToken> {
    seq(|tokens|, i requires 0 <= i < |tokens| =>
      if tokens[i].family == family && tokens[i].revoked.None? then Revoke(tokens[i], now) else tokens[i])
  }

  function RevokeUser(tokens: seq<RefreshToken>, user: nat, now: Instant): seq<RefreshToken> {
    seq(|tokens|, i requires 0 <= i < |tokens| =>
      if tokens[i].user == user && tokens[i].revoked.None? then Revoke(tokens[i], now) else tokens[i])
  }

  predicate Active(db: Database, user: nat) {
    user in db.users && db.users[user].active
  }

  // The user a slug and an email address name, deleted users aside.
  function Lookup(db: Database, slug: string, email: string): Option<nat> {
    if slug !in db.tenants then None
    else
      var key := (db.tenants[slug].id, email);
      if key in db.emails && db.emails[key] in db.users && !db.users[db.emails[key]].deleted
      then Some(db.emails[key]) else None
  }

  // ---------- Handlers as functions of the committed state ----------

  function Successor(c: Config, w: World, user: nat, family: nat, now: Instant): RefreshToken {
    RefreshToken(w.supply, user, family, now + c.refreshDays * DAY, None)
  }

  // A timestamp in seconds, with its fraction cut off.
  function Seconds(t: Instant): int {
    if t >= 0 then t / SECOND else -(-t / SECOND)
  }

  // The permissions of the roles, one role after the other.
  function Granted(roles: seq<Role>): seq<string> {
    if roles == [] then [] else Granted(roles[..|roles| - 1]) + roles[|roles| - 1].permissions
  }

  function AccessFor(c: Config, user: nat, u: User, now: Instant): Access {
    Access(user, u.tenant, seq(|u.roles|, i requires 0 <= i < |u.roles| => u.roles[i].name),
           (set p | p in Granted(u.roles)), Seconds(now), Seconds(now + c.accessMinutes * MINUTE))
  }

  // The login succeeds as `user`.
  predicate Accepts(db: Database, slug: string, email: string, password: string, user: nat) {
    && slug in db.tenants && db.tenants[slug].active
    && Lookup(db, slug, email) == Some(user)
    && Active(db, user)
    && db.users[user].password == password
  }

  function LoginStep(c: Config, w: World, slug: string, email: string, password: string, now: Instant)
    : (World, Outcome)
  {
    var db := w.db;
    var found := Lookup(db, slug, email);
    if found.None? || !Accepts(db, slug, email, password, found.value) then (w, BadCredentials)
    else
      var user := found.value;
      var db' := db.(users := db.users[user := db.users[user].(lastLogin := Some(now))],
                     tokens := db.tokens + [Successor(c, w, user, w.supply, now)]);
      var access := AccessFor(c, user, db.users[user], now);
      (World(if c.loginCommits then db' else db, w.supply + 1), Issued(access, w.supply))
  }

  function RefreshStep(c: Config, w: World, raw: nat, jwtValid: bool, now: Instant): (World, Outcome) {
    var tokens := w.db.tokens;
    var found := FindToken(tokens, raw);
    if !jwtValid then (w, BadJwt)
    else if found.None? then (w, UnknownToken)
    else
      var i := found.value;
      var t := tokens[i];
      if t.revoked.Some? then (w.(db := w.db.(tokens := RevokeFamily(tokens, t.family, now))), Reused)
      else if t.expires < now then (w, Expired)
      else if !Active(w.db, t.user) then (w, InactiveUser)
      else
        var rotated := tokens[i := Revoke(t, now)] + [Successor(c, w, t.user, t.family, now)];
        var access := AccessFor(c, t.user, w.db.users[t.user], now);
        (World(w.db.(tokens := rotated), w.supply + 1), Issued(access, w.supply))
  }

  function LogoutStep(w: World, raw: nat, now: Instant): World {
    var tokens := w.db.tokens;
    var found := FindToken(tokens, raw);
    if found.Some? && tokens[found.value].revoked.None?
    then w.(db := w.db.(tokens := tokens[found.value := Revoke(tokens[found.value], now)]))
    else w
  }

  function ResetStep(w: World, raw: nat, password: string, now: Instant): (World, Outcome) {
    var db := w.db;
    var found := FindReset(db.resets, raw, now);
    if found.None? then (w, InvalidReset)
    else
      var r := db.resets[found.value];
      if r.user !in db.users then (w, UserNotFound)
      else
        (w.(db := db.(users := db.users[r.user := db.users[r.user].(password := password)],
                      resets := db.resets[found.value := r.(used := Some(now))],
                      tokens := RevokeUser(db.tokens, r.user, now))), Done)
  }

  function Step(c: Config, w: World, e: Event): (World, Outcome) {
    var db := w.db;
    match e
    case Login(slug, email, password, now) => LoginStep(c, w, slug, email, password, now)
    case Refresh(raw, jwtValid, now) => RefreshStep(c, w, raw, jwtValid, now)
    case Logout(raw, now) => (LogoutStep(w, raw, now), Done)
    case LogoutAll(user, now) =>
      if !Active(db, user) then (w, NotAuthenticated)
      else (w.(db := db.(tokens := RevokeUser(db.tokens, user, now))), Done)
    case ChangePassword(user, current, password, now) =>
      if !Active(db, user) then (w, NotAuthenticated)
      else if db.users[user].password != current then (w, WrongPassword)
      else (w.(db := db.(users := db.users[user := db.users[user].(password := password)],
                         tokens := RevokeUser(db.tokens, user, now))), Done)
    case ForgotPassword(slug, email, now) =>
      var found := Lookup(db, slug, email);
      if found.None? then (w, NothingSent)
      else
        var reset := ResetToken(w.supply, found.value, now + RESET_LIFETIME, None);
        (World(db.(resets := db.resets + [reset]), w.supply + 1), ResetIssued(w.supply))
    case ResetPassword(raw, password, now) => ResetStep(w, raw, password, now)
    case Administer(tenants, emails, users) =>
      (w.(db := db.(tenants := tenants, emails := emails, users := users)), Done)
  }

  function Run(c: Config, w: World, es: seq<Event>): World
    decreases |es|
  {
    if es == [] then w else Run(c, Step(c, w, es[0]).0, es[1..])
  }

  // ---------- The service ----------

  class AuthService {
    const config: Config
    var committed: Database
    var working: Database
    var supply: nat

    // Between requests no session has uncommitted work.
    predicate Idle()
      reads this
    {
      working == committed
    }

    function Stored(): World
      reads this
    {
      World(committed, supply)
    }

    constructor (config: Config, db: Database)
      ensures this.config == config && Idle() && Stored() == World(db, 0)
    {
      this.config := config;
      committed, working, supply := db, db, 0;
    }

    method Commit()
      modifies this`committed
      ensures committed == working
    {
      committed := working;
    }

    // A session that is closed, or left by an exception, loses what it has not committed.
    method Close()
      modifies this`working
      ensures Idle()
    {
      working := committed;
    }

    method CollectPermissions(roles: seq<Role>) returns (permissions: set<string>)
      ensures forall p :: p in permissions <==> p in Granted(roles)
    {
      var granted: seq<string> := [];
      for i := 0 to |roles|
        invariant granted == Granted(roles[..i])
      {
        assert roles[..i + 1][..i] == roles[..i];
        granted := granted + roles[i].permissions;
      }
      assert roles[..|roles|] == roles;
      permissions := set p | p in granted;
    }

    method IssueTokenPair(user: nat, family: Option<nat>, now: Instant) returns (access: Access, raw: nat)
      requires user in working.users
      modifies this`working, this`supply
      ensures access == AccessFor(config, user, old(working).users[user], now)
      ensures raw == old(supply) && supply == old(supply) + 1
      ensures working == old(working).(tokens := old(working.tokens) + [
                RefreshToken(raw, user, if family.Some? then family.value else raw,
                             now + config.refreshDays * DAY, None)])
    {
      var u := working.users[user];
      var names := seq(|u.roles|, i requires 0 <= i < |u.roles| => u.roles[i].name);
      var permissions := CollectPermissions(u.roles);
      assert permissions == set p | p in Granted(u.roles);
      access := Access(user, u.tenant, names, permissions, Seconds(now), Seconds(now + config.accessMinutes * MINUTE));
      raw := supply;
      supply := supply + 1;
      var newFamily := if family.Some? then family.value else raw;
      var token := RefreshToken(raw, user, newFamily, now + config.refreshDays * DAY, None);
      working := working.(tokens := working.tokens + [token]);
    }

    method Login(slug: string, email: string, password: string, now: Instant) returns (r: Outcome)
      requires Idle()
      modifies this
      ensures Idle() && (Stored(), r) == Step(config, old(Stored()), Event.Login(slug, email, password, now))
    {
      if slug !in working.tenants || !working.tenants[slug].active {
        return BadCredentials;
      }
      var found := Lookup(working, slug, email);
      if found.None? || !working.users[found.value].active {
        return BadCredentials;
      }
      var user := working.users[found.value];
      if user.password != password {
        return BadCredentials;
      }
      working := working.(users := working.users[found.value := user.(lastLogin := Some(now))]);
      var access, raw := IssueTokenPair(found.value, None, now);
      if config.loginCommits {
        Commit();
      }
      Close();
      return Issued(access, raw);
    }

    method Refresh(raw: nat, jwtValid: bool, now: Instant) returns (r: Outcome)
      requires Idle()
      modifies this
      ensures Idle() && (Stored(), r) == Step(config, old(Stored()), Event.Refresh(raw, jwtValid, now))
    {
      if !jwtValid {
        return BadJwt;
      }
      var found := FindToken(working.tokens, raw);
      if found.None? {
        return UnknownToken;
      }
      var stored := working.tokens[found.value];
      if stored.revoked.Some? {
        working := working.(tokens := RevokeFamily(working.tokens, stored.family, now));
        Commit();
        return Reused;
      }
      if stored.expires < now {
        return Expired;
      }
      working := working.(tokens := working.tokens[found.value := Revoke(stored, now)]);
      if stored.user !in working.users || !working.users[stored.user].active {
        Close();
        return InactiveUser;
      }
      var access, successor := IssueTokenPair(stored.user, Some(stored.family), now);
      Commit();
      return Issued(access, successor);
    }

    method Logout(raw: nat, now: Instant) returns (r: Outcome)
      requires Idle()
      modifies this
      ensures Idle() && (Stored(), r) == Step(config, old(Stored()), Event.Logout(raw, now))
    {
      var found := FindToken(working.tokens, raw);
      if found.Some? && working.tokens[found.value].revoked.None? {
        working := working.(tokens := working.tokens[found.value := Revoke(working.tokens[found.value], now)]);
        Commit();
      }
      return Done;
    }

    method LogoutAll(user: nat, now: Instant) returns (r: Outcome)
      requires Idle()
      modifies this
      ensures Idle() && (Stored(), r) == Step(config, old(Stored()), Event.LogoutAll(user, now))
    {
      if !Active(working, user) {
        return NotAuthenticated;
      }
      working := working.(tokens := RevokeUser(working.tokens, user, now));
      Commit();
      return Done;
    }

    method ChangePassword(user: nat, current: string, password: string, now: Instant) returns (r: Outcome)
      requires Idle()
      modifies this
      ensures Idle() && (Stored(), r) == Step(config, old(Stored()), Event.ChangePassword(user, current, password, now))
    {
      if !Active(working, user) {
        return NotAuthenticated;
      }
      if working.users[user].password != current {
        return WrongPassword;
      }
      working := working.(users := working.users[user := working.users[user].(password := password)]);
      working := working.(tokens := RevokeUser(working.tokens, user, now));
      Commit();
      return Done;
    }

    method ForgotPassword(slug: string, email: string, now: Instant) returns (r: Outcome)
      requires Idle()
      modifies this
      ensures Idle() && (Stored(), r) == Step(config, old(Stored()), Event.ForgotPassword(slug, email, now))
    {
      var found := Lookup(working, slug, email);
      if found.None? {
        return NothingSent;
      }
      var raw := supply;
      supply := supply + 1;
      working := working.(resets := working.resets + [ResetToken(raw, found.value, now + RESET_LIFETIME, None)]);
      Commit();
      return ResetIssued(raw);
    }

    method ResetPassword(raw: nat, password: string, now: Instant) returns (r: Outcome)
      requires Idle()
      modifies this
      ensures Idle() && (Stored(), r) == Step(config, old(Stored()), Event.ResetPassword(raw, password, now))
    {
      var found := FindReset(working.resets, raw, now);
      if found.None? {
        return InvalidReset;
      }
      var stored := working.resets[found.value];
      if stored.user !in working.users {
        return UserNotFound;
      }
      working := working.(users := working.users[stored.user := working.users[stored.user].(password := password)]);
      working := working.(resets := working.resets[found.value := stored.(used := Some(now))]);
      working := working.(tokens := RevokeUser(working.tokens, stored.user, now));
      Commit();
      return Done;
    }
  }
}
