/** Tokens, sessions and renewal as a step system over time.

    Signing is idealised (section 3.2 of RFC 7518, section 7.2 of RFC 7519): a string verifies if
    and only if the maker issued it, and then to the payload it was issued for. Ids and strings are
    fresh when drawn. Each reading of the clock that the handlers make is there, and nothing is assumed
    about how two readings compare. A `char` stands for one character of a request, which is what its
    length limit counts. */
module Tokens {
  import opened Wrappers
  import opened Timestamps

  datatype Config = Config(accessDuration: int, refreshDuration: int)

  datatype Payload = Payload(id: nat, username: string, issuedAt: int, expiredAt: int)

  datatype Session = Session(id: nat, username: string, refreshToken: string, isBlocked: bool, expiredAt: int)

  /** History: a login that passed the password check and got as far as its first token. Whether its
      refresh token was signed, and whether the session row was then inserted. */
  datatype Login = Login(username: string, at: int, refreshToken: Option<string>, recorded: bool)

  datatype State = State(
    passwords: map<string, string>,   // user -> the password its stored hash matches
    minted: map<string, Payload>,     // every string ever signed
    sessions: map<nat, Session>,
    logins: seq<Login>,               // history
    origin: map<string, Origin>)      // history: minted string -> where it comes from

  /** The login a token descends from, and how much time its handlers spent, from that login on,
      between their first reading of the clock and the one that dates the token. */
  datatype Origin = Origin(login: nat, lag: int)

  /** What the random sources and the clock hand out for one new token: `NewPayload` reads the clock
      for the time of issue, and again for the expiry. */
  datatype Draw = Draw(id: nat, token: string, issuedAt: int, at: int)

  /** The calls of the two handlers that can fail for an outside reason. */
  datatype Call = FindUser | MintAccess | MintRefresh | InsertSession | FindSession

  datatype Event =
    | SetPassword(username: string, password: string)   // user created, or password changed
    | LoginUser(username: string, password: string, access: Draw, refresh: Draw, broken: Option<Call>)
    // the clock is read when the token is verified, when the session is checked, and for the new token
    | Renew(token: string, verifiedAt: int, checkedAt: int, access: Draw, broken: Option<Call>)
    | SetBlocked(id: nat, blocked: bool)                 // by an operator, directly in the database

  datatype LoginResponse =
    | LoggedIn(sessionId: nat, accessToken: string, accessExpiredAt: int, refreshToken: string, refreshExpiredAt: int)
    | LoginRejected(reason: LoginError)

  datatype LoginError = BadLogin | UnknownUser | WrongPassword | LoginFault

  datatype RenewResponse =
    | Renewed(accessToken: string, accessExpiredAt: int)
    | RenewRejected(reason: RenewError)

  datatype RenewError =
    | BadRequest | InvalidToken | ExpiredToken | NoSession | SessionBlocked
    | IncorrectUser | IncorrectToken | ExpiredSession | RenewFault

  /* ---- token/payload.go, token/jwt_maker.go ---- */

  function NewPayload(d: Draw, username: string, duration: int): Payload {
    Payload(d.id, username, d.issuedAt, d.at + duration)
  }

  /** `time.Now().After(expiredAt)`: the instant of expiry itself is still valid. */
  predicate After(now: int, expiredAt: int) {
    now > expiredAt
  }

  datatype Verified = Valid(payload: Payload) | Invalid(reason: RenewError)

  function Verify(minted: map<string, Payload>, token: string, now: int): Verified {
    if token !in minted then Invalid(InvalidToken)
    else if After(now, minted[token].expiredAt) then Invalid(ExpiredToken)
    else Valid(minted[token])
  }

  predicate FreshDraw(s: State, d: Draw) {
    d.token !in s.minted && forall t | t in s.minted :: s.minted[t].id != d.id
  }

  /* ---- api/user.go: loginUser ---- */

  predicate IsAlphanum(s: string) {
    |s| > 0 && forall i | 0 <= i < |s| :: 'a' <= s[i] <= 'z' || 'A' <= s[i] <= 'Z' || '0' <= s[i] <= '9'
  }

  function ExecLogin(cfg: Config, s: State, username: string, password: string,
                     access: Draw, refresh: Draw, broken: Option<Call>): (State, LoginResponse)
  {
    if !IsAlphanum(username) || |password| < 6 then (s, LoginRejected(BadLogin))
    else if broken == Some(FindUser) then (s, LoginRejected(LoginFault))
    else if username !in s.passwords then (s, LoginRejected(UnknownUser))
    else if s.passwords[username] != password then (s, LoginRejected(WrongPassword))
    else if broken == Some(MintAccess) then (s, LoginRejected(LoginFault))
    else Issue(cfg, s, username, access, refresh, broken)
  }

  /** The rest of a login, from its first token on. A second row with the same id is refused. */
  function Issue(cfg: Config, s: State, username: string,
                 access: Draw, refresh: Draw, broken: Option<Call>): (State, LoginResponse)
  {
    var a := NewPayload(access, username, cfg.accessDuration);
    var r := NewPayload(refresh, username, cfg.refreshDuration);
    var n := |s.logins|;
    var s1 := s.(minted := s.minted[access.token := a], origin := s.origin[access.token := Origin(n, 0)]);
    if broken == Some(MintRefresh) then
      (s1.(logins := s.logins + [Login(username, access.at, None, false)]), LoginRejected(LoginFault))
    else
      var inserted := broken != Some(InsertSession) && r.id !in s.sessions;
      var s2 := s1.(minted := s1.minted[refresh.token := r],
                    origin := s1.origin[refresh.token := Origin(n, refresh.at - access.at)],
                    logins := s.logins + [Login(username, access.at, Some(refresh.token), inserted)]);
      if !inserted then (s2, LoginRejected(LoginFault))
      else
        (s2.(sessions := s.sessions[r.id := Session(r.id, username, refresh.token, false, StoreTime(r.expiredAt))]),
         LoggedIn(r.id, access.token, a.expiredAt, refresh.token, r.expiredAt))
  }

  /* ---- api/token.go: reNewAccessToken ---- */

  /** The guard chain: what the handler answers, and the payload it goes on with. */
  function Guards(s: State, token: string, verifiedAt: int, checkedAt: int, broken: Option<Call>): Verified {
    match Verify(s.minted, token, verifiedAt)
    case Invalid(e) => Invalid(e)
    case Valid(payload) =>
      if broken == Some(FindSession) then Invalid(RenewFault)
      else if payload.id !in s.sessions then Invalid(NoSession)
      else
        var session := s.sessions[payload.id];
        if session.isBlocked then Invalid(SessionBlocked)
        else if session.username != payload.username then Invalid(IncorrectUser)
        else if session.refreshToken != token then Invalid(IncorrectToken)
        else if After(checkedAt, session.expiredAt) then Invalid(ExpiredSession)
        else Valid(payload)
  }

  /** Where a token made at `at` in exchange for `token` comes from. */
  function RenewedOrigin(s: State, token: string, verifiedAt: int, at: int): Origin {
    if token in s.origin then Origin(s.origin[token].login, s.origin[token].lag + at - verifiedAt)
    else Origin(0, 0)
  }

  function ExecRenew(cfg: Config, s: State, token: string, verifiedAt: int, checkedAt: int, access: Draw,
                     broken: Option<Call>): (State, RenewResponse)
  {
    if token == "" then (s, RenewRejected(BadRequest))
    else match Guards(s, token, verifiedAt, checkedAt, broken)
      case Invalid(e) => (s, RenewRejected(e))
      case Valid(payload) =>
        if broken == Some(MintAccess) then (s, RenewRejected(RenewFault))
        else
          var a := NewPayload(access, payload.username, cfg.accessDuration);
          (s.(minted := s.minted[access.token := a],
              origin := s.origin[access.token := RenewedOrigin(s, token, verifiedAt, access.at)]),
           Renewed(access.token, a.expiredAt))
  }

  /* ---- Runs ---- */

  predicate Enabled(s: State, e: Event) {
    match e
    case LoginUser(_, _, a, r, _) =>
      FreshDraw(s, a) && FreshDraw(s, r) && a.id != r.id && a.token != r.token && a.token != "" && r.token != ""
    case Renew(_, _, _, a, _) => FreshDraw(s, a) && a.token != ""
    case _ => true
  }

  function Apply(cfg: Config, s: State, e: Event): State {
    if !Enabled(s, e) then s
    else match e
      case SetPassword(u, p) => s.(passwords := s.passwords[u := p])
      case LoginUser(u, p, a, r, broken) => ExecLogin(cfg, s, u, p, a, r, broken).0
      case Renew(token, verifiedAt, checkedAt, a, broken) =>
        ExecRenew(cfg, s, token, verifiedAt, checkedAt, a, broken).0
      case SetBlocked(id, b) =>
        if id in s.sessions then s.(sessions := s.sessions[id := s.sessions[id].(isBlocked := b)]) else s
  }

  function Exec(cfg: Config, s: State, events: seq<Event>): State {
    if |events| == 0 then s else Apply(cfg, Exec(cfg, s, events[..|events| - 1]), events[|events| - 1])
  }

  const NOBODY: State := State(map[], map[], map[], [], map[])

  /* ---- What every run keeps ---- */

  predicate IsRefreshToken(s: State, token: string) {
    && token in s.origin && s.origin[token].login < |s.logins|
    && s.logins[s.origin[token].login].refreshToken == Some(token)
  }

  function NonNegative(d: int): int {
    if d < 0 then 0 else d
  }

  /** Every token descends from a login of its user; that login and the time spent since bound when
      it expires. */
  predicate Descends(cfg: Config, s: State, token: string)
    requires token in s.minted
  {
    && token in s.origin && s.origin[token].login < |s.logins|
    && var login := s.logins[s.origin[token].login];
    && s.minted[token].username == login.username
    && var start := login.at + s.origin[token].lag;
    && (if login.refreshToken == Some(token) then s.minted[token].expiredAt == start + cfg.refreshDuration
        else s.minted[token].expiredAt <= start + NonNegative(cfg.refreshDuration) + cfg.accessDuration)
  }

  predicate SessionMatches(s: State, id: nat)
    requires id in s.sessions
  {
    var session := s.sessions[id];
    && session.id == id
    && session.refreshToken in s.minted
    && s.minted[session.refreshToken].id == id
    && s.minted[session.refreshToken].username == session.username
    && StoreTime(s.minted[session.refreshToken].expiredAt) == session.expiredAt
    && IsRefreshToken(s, session.refreshToken)
    && s.logins[s.origin[session.refreshToken].login].recorded
  }

  predicate LoginRecorded(s: State, i: nat)
    requires i < |s.logins|
  {
    match s.logins[i].refreshToken
    case None => !s.logins[i].recorded
    case Some(token) =>
      && token in s.minted && token in s.origin && s.origin[token].login == i
      && (s.logins[i].recorded ==> s.minted[token].id in s.sessions
                                   && s.sessions[s.minted[token].id].refreshToken == token)
  }

  predicate UniqueIds(s: State) {
    "" !in s.minted && forall t, u | t in s.minted && u in s.minted && s.minted[t].id == s.minted[u].id :: t == u
  }

  predicate AllDescend(cfg: Config, s: State) {
    forall t | t in s.minted :: Descends(cfg, s, t)
  }

  predicate SessionsMatch(s: State) {
    forall id | id in s.sessions :: SessionMatches(s, id)
  }

  predicate LoginsRecorded(s: State) {
    forall i | 0 <= i < |s.logins| :: LoginRecorded(s, i)
  }

  predicate Inv(cfg: Config, s: State) {
    UniqueIds(s) && AllDescend(cfg, s) && SessionsMatch(s) && LoginsRecorded(s)
  }

  predicate PassesLogin(s: State, u: string, p: string) {
    IsAlphanum(u) && |p| >= 6 && u in s.passwords && s.passwords[u] == p
  }

  lemma DescentKept(cfg: Config, s: State, s': State, t: string)
    requires t in s.minted && Descends(cfg, s, t) && s.logins <= s'.logins
    requires t in s'.minted && s'.minted[t] == s.minted[t]
    requires t in s'.origin && s'.origin[t] == s.origin[t]
    ensures Descends(cfg, s', t)
  {
  }

  lemma IssuedDescend(cfg: Config, s: State, u: string, a: Draw, r: Draw, broken: Option<Call>, t: string)
    requires a.token != r.token
    requires t in Issue(cfg, s, u, a, r, broken).0.minted && (t == a.token || t == r.token)
    requires t !in s.minted
    ensures Descends(cfg, Issue(cfg, s, u, a, r, broken).0, t)
  {
  }

  lemma IssueKeepsOthers(cfg: Config, s: State, u: string, a: Draw, r: Draw, broken: Option<Call>)
    ensures var s' := Issue(cfg, s, u, a, r, broken).0;
            && s.logins <= s'.logins
            && (forall t | t in s.minted && t != a.token && t != r.token ::
                  t in s'.minted && s'.minted[t] == s.minted[t])
            && (forall t | t in s.origin && t != a.token && t != r.token ::
                  t in s'.origin && s'.origin[t] == s.origin[t])
            && (forall t | t in s'.minted :: t in s.minted || t == a.token || t == r.token)
  {
  }

  lemma LoginKeepsDescent(cfg: Config, s: State, u: string, p: string, a: Draw, r: Draw,
                          broken: Option<Call>)
    requires AllDescend(cfg, s) && Enabled(s, LoginUser(u, p, a, r, broken)) && PassesLogin(s, u, p)
    ensures AllDescend(cfg, ExecLogin(cfg, s, u, p, a, r, broken).0)
  {
    hide Descends;
    if broken != Some(MintAccess) {
      IssueKeepsOthers(cfg, s, u, a, r, broken);
      hide Issue;
      var s' := Issue(cfg, s, u, a, r, broken).0;
      forall t | t in s'.minted
        ensures Descends(cfg, s', t)
      {
        if t in s.minted {
          OriginKnown(cfg, s, t);
          DescentKept(cfg, s, s', t);
        } else {
          IssuedDescend(cfg, s, u, a, r, broken, t);
        }
      }
    }
  }

  lemma OriginKnown(cfg: Config, s: State, t: string)
    requires t in s.minted && Descends(cfg, s, t)
    ensures t in s.origin
  {
  }

  /** A drawn id meets no session of an earlier token. */
  lemma DrawnIdHasNoSession(s: State, d: Draw)
    requires SessionsMatch(s) && FreshDraw(s, d)
    ensures d.id !in s.sessions
  {
    assert d.id in s.sessions ==> SessionMatches(s, d.id);
  }

  lemma LoginKeepsSessions(cfg: Config, s: State, u: string, p: string, a: Draw, r: Draw,
                           broken: Option<Call>)
    requires SessionsMatch(s) && Enabled(s, LoginUser(u, p, a, r, broken)) && PassesLogin(s, u, p)
    ensures SessionsMatch(ExecLogin(cfg, s, u, p, a, r, broken).0)
  {
    var s' := ExecLogin(cfg, s, u, p, a, r, broken).0;
    DrawnIdHasNoSession(s, r);
    forall id | id in s'.sessions
      ensures SessionMatches(s', id)
    {
      if id in s.sessions {
        assert SessionMatches(s, id);
      }
    }
  }

  lemma LoginKeepsRecords(cfg: Config, s: State, u: string, p: string, a: Draw, r: Draw,
                          broken: Option<Call>)
    requires SessionsMatch(s) && LoginsRecorded(s)
    requires Enabled(s, LoginUser(u, p, a, r, broken)) && PassesLogin(s, u, p)
    ensures LoginsRecorded(ExecLogin(cfg, s, u, p, a, r, broken).0)
  {
    var s' := ExecLogin(cfg, s, u, p, a, r, broken).0;
    DrawnIdHasNoSession(s, r);
    forall i | 0 <= i < |s'.logins|
      ensures LoginRecorded(s', i)
    {
      if i < |s.logins| {
        assert LoginRecorded(s, i);
      }
    }
  }

  lemma LoginKeepsInv(cfg: Config, s: State, u: string, p: string, a: Draw, r: Draw,
                      broken: Option<Call>)
    requires Inv(cfg, s) && Enabled(s, LoginUser(u, p, a, r, broken))
    ensures Inv(cfg, ExecLogin(cfg, s, u, p, a, r, broken).0)
  {
    hide AllDescend;
    hide SessionsMatch;
    hide LoginsRecorded;
    if PassesLogin(s, u, p) {
      LoginKeepsDescent(cfg, s, u, p, a, r, broken);
      LoginKeepsSessions(cfg, s, u, p, a, r, broken);
      LoginKeepsRecords(cfg, s, u, p, a, r, broken);
    } else {
      assert ExecLogin(cfg, s, u, p, a, r, broken).0 == s;
    }
  }

  lemma RenewKeepsInv(cfg: Config, s: State, token: string, verifiedAt: int, checkedAt: int, a: Draw,
                      broken: Option<Call>)
    requires Inv(cfg, s) && Enabled(s, Renew(token, verifiedAt, checkedAt, a, broken))
    ensures Inv(cfg, ExecRenew(cfg, s, token, verifiedAt, checkedAt, a, broken).0)
  {
    var (s', response) := ExecRenew(cfg, s, token, verifiedAt, checkedAt, a, broken);
    if response.Renewed? {
      SessionOfToken(cfg, s, token);
      forall t | t in s'.minted
        ensures Descends(cfg, s', t)
      {
        assert Descends(cfg, s, token);
        if t != a.token {
          assert Descends(cfg, s, t);
        } else {
          assert LoginRecorded(s, s.origin[token].login);
        }
      }
      forall i | 0 <= i < |s'.logins|
        ensures LoginRecorded(s', i)
      {
        assert LoginRecorded(s, i);
      }
      forall id | id in s'.sessions
        ensures SessionMatches(s', id)
      {
        assert SessionMatches(s, id);
      }
    }
  }

  /** The session found under a token's id is the session of that very token. */
  lemma SessionOfToken(cfg: Config, s: State, token: string)
    requires Inv(cfg, s) && token in s.minted && s.minted[token].id in s.sessions
    ensures s.sessions[s.minted[token].id].refreshToken == token
    ensures IsRefreshToken(s, token) && s.logins[s.origin[token].login].recorded
  {
    assert SessionMatches(s, s.minted[token].id);
  }

  lemma ApplyKeepsInv(cfg: Config, s: State, e: Event)
    requires Inv(cfg, s)
    ensures Inv(cfg, Apply(cfg, s, e))
  {
    hide Inv;
    hide FreshDraw;
    if Enabled(s, e) {
      match e
      case SetPassword(_, _) => SessionsKeepInv(cfg, s, Apply(cfg, s, e));
      case LoginUser(u, p, a, r, broken) => LoginKeepsInv(cfg, s, u, p, a, r, broken);
      case Renew(token, verifiedAt, checkedAt, a, broken) =>
        RenewKeepsInv(cfg, s, token, verifiedAt, checkedAt, a, broken);
      case SetBlocked(_, _) => SessionsKeepInv(cfg, s, Apply(cfg, s, e));
    }
  }

  /** Passwords and blocked flags play no part in the invariant. */
  lemma SessionsKeepInv(cfg: Config, s: State, s': State)
    requires Inv(cfg, s)
    requires s'.minted == s.minted && s'.logins == s.logins && s'.origin == s.origin
    requires s'.sessions.Keys == s.sessions.Keys
    requires forall id | id in s.sessions :: s'.sessions[id].(isBlocked := s.sessions[id].isBlocked) == s.sessions[id]
    ensures Inv(cfg, s')
  {
    forall t | t in s'.minted
      ensures Descends(cfg, s', t)
    {
      assert Descends(cfg, s, t);
    }
    forall i | 0 <= i < |s'.logins|
      ensures LoginRecorded(s', i)
    {
      assert LoginRecorded(s, i);
    }
    forall id | id in s'.sessions
      ensures SessionMatches(s', id)
    {
      assert SessionMatches(s, id);
    }
  }

  lemma {:induction false} ExecKeepsInvFrom(cfg: Config, s: State, rest: seq<Event>)
    requires Inv(cfg, s)
    ensures Inv(cfg, Exec(cfg, s, rest))
  {
    if |rest| == 0 {
    } else {
      ExecKeepsInvFrom(cfg, s, rest[..|rest| - 1]);
      ApplyKeepsInv(cfg, Exec(cfg, s, rest[..|rest| - 1]), rest[|rest| - 1]);
    }
  }

  lemma ExecKeepsInv(cfg: Config, events: seq<Event>)
    ensures Inv(cfg, Exec(cfg, NOBODY, events))
  {
    ExecKeepsInvFrom(cfg, NOBODY, events);
  }

  /* ---- Main results ---- */

  /** Bounded lineage. Whatever the run, a token that verifies at `now` descends from a login of the
      same user no earlier than `now` minus both durations and the time its handlers spent between
      their readings, however often it was renewed: renewal mints access tokens only. (With a negative
      refresh duration, the access duration alone.) A refresh token presented in its place reaches
      back one duration only. */
  lemma BoundedLineage(cfg: Config, events: seq<Event>, token: string, now: int)
    requires Verify(Exec(cfg, NOBODY, events).minted, token, now).Valid?
    ensures var s := Exec(cfg, NOBODY, events);
            && token in s.origin && s.origin[token].login < |s.logins|
            && var login := s.logins[s.origin[token].login];
            && var start := login.at + s.origin[token].lag;
            && login.username == s.minted[token].username
            && (IsRefreshToken(s, token) ==> now <= start + cfg.refreshDuration)
            && (!IsRefreshToken(s, token) ==> now <= start + NonNegative(cfg.refreshDuration) + cfg.accessDuration)
  {
    ExecKeepsInv(cfg, events);
    assert Descends(cfg, Exec(cfg, NOBODY, events), token);
  }

  /** From the first to the last reading of the clock that matters for a token the request makes. */
  function Pause(e: Event): int {
    match e
    case LoginUser(_, _, access, refresh, _) => refresh.at - access.at
    case Renew(_, verifiedAt, _, access, _) => access.at - verifiedAt
    case _ => 0
  }

  predicate LagsBounded(s: State, pause: nat) {
    forall t | t in s.origin :: s.origin[t].lag <= if IsRefreshToken(s, t) then pause else 2 * pause
  }

  lemma LoginKeepsLags(cfg: Config, s: State, u: string, a: Draw, r: Draw, broken: Option<Call>, pause: nat)
    requires AllDescend(cfg, s) && s.origin.Keys == s.minted.Keys && LagsBounded(s, pause)
    requires FreshDraw(s, a) && FreshDraw(s, r) && a.token != r.token && r.at - a.at <= pause
    ensures LagsBounded(Issue(cfg, s, u, a, r, broken).0, pause)
  {
    var s' := Issue(cfg, s, u, a, r, broken).0;
    IssueKeepsOthers(cfg, s, u, a, r, broken);
    forall t | t in s'.origin
      ensures s'.origin[t].lag <= if IsRefreshToken(s', t) then pause else 2 * pause
    {
      if t in s.origin {
        assert Descends(cfg, s, t);
        hide Issue;
      }
    }
  }

  lemma RenewKeepsLags(cfg: Config, s: State, e: Event, pause: nat)
    requires Inv(cfg, s) && s.origin.Keys == s.minted.Keys && LagsBounded(s, pause)
    requires e.Renew? && Enabled(s, e) && Pause(e) <= pause
    ensures LagsBounded(Apply(cfg, s, e), pause)
  {
    if Renewal(cfg, s, e).Renewed? {
      var token := e.token;
      SessionOfToken(cfg, s, token);
      hide Inv;
      assert s.origin[token].lag <= pause;
    }
  }

  lemma OriginsOfMinted(cfg: Config, s: State, e: Event)
    requires s.origin.Keys == s.minted.Keys
    ensures Apply(cfg, s, e).origin.Keys == Apply(cfg, s, e).minted.Keys
  {
    hide FreshDraw;
  }

  lemma ApplyKeepsLags(cfg: Config, s: State, e: Event, pause: nat)
    requires Inv(cfg, s) && s.origin.Keys == s.minted.Keys && LagsBounded(s, pause) && Pause(e) <= pause
    ensures LagsBounded(Apply(cfg, s, e), pause)
  {
    if Enabled(s, e) && e.Renew? {
      RenewKeepsLags(cfg, s, e, pause);
    } else if Enabled(s, e) && e.LoginUser? {
      LoginKeepsLags(cfg, s, e.username, e.access, e.refresh, e.broken, pause);
      hide LagsBounded;
    } else {
      assert Apply(cfg, s, e).origin == s.origin && Apply(cfg, s, e).logins == s.logins;
    }
    hide Inv;
    hide FreshDraw;
    hide Issue;
    hide ExecRenew;
  }

  lemma {:induction false} ExecKeepsLags(cfg: Config, events: seq<Event>, pause: nat)
    requires forall i | 0 <= i < |events| :: Pause(events[i]) <= pause
    ensures LagsBounded(Exec(cfg, NOBODY, events), pause)
    ensures Exec(cfg, NOBODY, events).origin.Keys == Exec(cfg, NOBODY, events).minted.Keys
  {
    if |events| == 0 {
    } else {
      ExecKeepsLags(cfg, events[..|events| - 1], pause);
      ExecKeepsInv(cfg, events[..|events| - 1]);
      OriginsOfMinted(cfg, Exec(cfg, NOBODY, events[..|events| - 1]), events[|events| - 1]);
      ApplyKeepsLags(cfg, Exec(cfg, NOBODY, events[..|events| - 1]), events[|events| - 1], pause);
      hide Apply;
      hide Inv;
      hide LagsBounded;
    }
  }

  /** So, when no handler pauses for longer than `pause` between its readings, a token reaches back
      both durations and two such pauses, over any number of renewals. */
  lemma BoundedPauses(cfg: Config, events: seq<Event>, token: string, now: int, pause: nat)
    requires Verify(Exec(cfg, NOBODY, events).minted, token, now).Valid?
    requires forall i | 0 <= i < |events| :: Pause(events[i]) <= pause
    ensures var s := Exec(cfg, NOBODY, events);
            exists i | 0 <= i < |s.logins| ::
              && s.logins[i].username == s.minted[token].username
              && now <= s.logins[i].at + NonNegative(cfg.refreshDuration) + NonNegative(cfg.accessDuration) + 2 * pause
  {
    var s := Exec(cfg, NOBODY, events);
    BoundedLineage(cfg, events, token, now);
    ExecKeepsLags(cfg, events, pause);
    var i := s.origin[token].login;
    assert now <= s.logins[i].at + NonNegative(cfg.refreshDuration) + NonNegative(cfg.accessDuration) + 2 * pause;
  }

  /** The string is a refresh token that an earlier login recorded in a session. */
  predicate Recorded(s: State, token: string) {
    exists i :: 0 <= i < |s.logins| && s.logins[i].recorded && s.logins[i].refreshToken == Some(token)
  }

  predicate Blocked(s: State, token: string) {
    token in s.minted && s.minted[token].id in s.sessions && s.sessions[s.minted[token].id].isBlocked
  }

  lemma RecordedIff(cfg: Config, s: State, token: string)
    requires Inv(cfg, s)
    ensures Recorded(s, token) <==> token in s.minted && s.minted[token].id in s.sessions
  {
    if token in s.minted && s.minted[token].id in s.sessions {
      SessionOfToken(cfg, s, token);
      assert s.logins[s.origin[token].login].recorded;
    }
    if Recorded(s, token) {
      var i :| 0 <= i < |s.logins| && s.logins[i].recorded && s.logins[i].refreshToken == Some(token);
      assert LoginRecorded(s, i);
    }
  }

  /** Exact renewal: in every reachable state, faults aside, renewal succeeds if and only if the
      string is a recorded refresh token whose session is not blocked, its expiry is not past when the
      token is verified, and that expiry as the database stores it is not past when the session is
      checked. */
  lemma RenewalIsExact(cfg: Config, events: seq<Event>, token: string, verifiedAt: int, checkedAt: int, access: Draw)
    ensures var s := Exec(cfg, NOBODY, events);
            ExecRenew(cfg, s, token, verifiedAt, checkedAt, access, None).1.Renewed? <==>
            Recorded(s, token) && !Blocked(s, token) && token in s.minted
            && verifiedAt <= s.minted[token].expiredAt && checkedAt <= StoreTime(s.minted[token].expiredAt)
  {
    ExecKeepsInv(cfg, events);
    AnswersFromInv(cfg, Exec(cfg, NOBODY, events), token, verifiedAt, checkedAt, access, None);
  }

  /** Every answer of a renewal in its case, in terms of what was issued, what the sessions say and
      what the clock showed. */
  predicate IsAnswerTo(s: State, token: string, verifiedAt: int, checkedAt: int, broken: Option<Call>,
                       answer: RenewResponse)
  {
    var verifies := token in s.minted && verifiedAt <= s.minted[token].expiredAt;
    var finds := verifies && broken != Some(FindSession) && Recorded(s, token);
    var onTime := token in s.minted && checkedAt <= StoreTime(s.minted[token].expiredAt);
    && (answer == RenewRejected(BadRequest) <==> token == "")
    && (answer == RenewRejected(InvalidToken) <==> token != "" && token !in s.minted)
    && (answer == RenewRejected(ExpiredToken) <==> token in s.minted && s.minted[token].expiredAt < verifiedAt)
    && (answer == RenewRejected(NoSession) <==> verifies && broken != Some(FindSession) && !Recorded(s, token))
    && (answer == RenewRejected(SessionBlocked) <==> finds && Blocked(s, token))
    && (answer == RenewRejected(ExpiredSession) <==> finds && !Blocked(s, token) && !onTime)
    && (answer == RenewRejected(RenewFault) <==>
        || (verifies && broken == Some(FindSession))
        || (finds && !Blocked(s, token) && onTime && broken == Some(MintAccess)))
    && (answer.Renewed? <==> finds && !Blocked(s, token) && onTime && broken != Some(MintAccess))
    && answer != RenewRejected(IncorrectUser) && answer != RenewRejected(IncorrectToken)
  }

  lemma AnswersFromInv(cfg: Config, s: State, token: string, verifiedAt: int, checkedAt: int, access: Draw,
                       broken: Option<Call>)
    requires Inv(cfg, s)
    ensures var answer := ExecRenew(cfg, s, token, verifiedAt, checkedAt, access, broken).1;
            && IsAnswerTo(s, token, verifiedAt, checkedAt, broken, answer)
            && (answer.Renewed? ==> answer == Renewed(access.token, access.at + cfg.accessDuration))
  {
    RecordedIff(cfg, s, token);
    if token in s.minted && s.minted[token].id in s.sessions {
      SessionOfToken(cfg, s, token);
      assert SessionMatches(s, s.minted[token].id);
    }
    hide Recorded;
    hide AllDescend;
    hide SessionsMatch;
    hide LoginsRecorded;
  }

  /** In every reachable state each answer of a renewal, every refusal included, is exactly in its
      case. */
  lemma RenewAnswers(cfg: Config, events: seq<Event>, token: string, verifiedAt: int, checkedAt: int, access: Draw,
                     broken: Option<Call>)
    ensures var s := Exec(cfg, NOBODY, events);
            var answer := ExecRenew(cfg, s, token, verifiedAt, checkedAt, access, broken).1;
            && IsAnswerTo(s, token, verifiedAt, checkedAt, broken, answer)
            && (answer.Renewed? ==> answer == Renewed(access.token, access.at + cfg.accessDuration))
  {
    ExecKeepsInv(cfg, events);
    AnswersFromInv(cfg, Exec(cfg, NOBODY, events), token, verifiedAt, checkedAt, access, broken);
  }

  /** The user and token comparisons never fail. The comparison with the session's expiry does fail
      for a token that has just verified: exactly when the stored expiry lies before the second reading
      of the clock, and the token's own not before the first. Without a pause between the readings
      that takes a stored expiry that was rounded down, and a window of less than half a microsecond. */
  lemma GuardsThatFire(cfg: Config, events: seq<Event>, token: string, verifiedAt: int, checkedAt: int)
    ensures var s := Exec(cfg, NOBODY, events);
            var g := Guards(s, token, verifiedAt, checkedAt, None);
            && g != Invalid(IncorrectUser) && g != Invalid(IncorrectToken)
            && (g == Invalid(ExpiredSession) <==>
                Recorded(s, token) && !Blocked(s, token) && token in s.minted
                && verifiedAt <= s.minted[token].expiredAt && StoreTime(s.minted[token].expiredAt) < checkedAt)
            && (g == Invalid(ExpiredSession) && verifiedAt == checkedAt ==>
                && StoreTime(s.minted[token].expiredAt) < s.minted[token].expiredAt
                && s.minted[token].expiredAt - checkedAt < 500)
  {
    var s := Exec(cfg, NOBODY, events);
    ExecKeepsInv(cfg, events);
    RecordedIff(cfg, s, token);
    if token in s.minted && s.minted[token].id in s.sessions {
      SessionOfToken(cfg, s, token);
      assert SessionMatches(s, s.minted[token].id);
    }
  }

  /** One user, who logs in with a refresh token made at `at`. */
  function OneLogin(at: int): seq<Event> {
    [SetPassword("ada", "secret"), LoginUser("ada", "secret", Draw(1, "a", at, at), Draw(2, "r", at, at), None)]
  }

  lemma OneLoginRuns(cfg: Config, at: int)
    ensures var s := Exec(cfg, NOBODY, OneLogin(at));
            && "r" in s.minted && s.minted["r"].expiredAt == at + cfg.refreshDuration
            && Recorded(s, "r") && !Blocked(s, "r")
  {
    var register, login := OneLogin(at)[0], OneLogin(at)[1];
    assert OneLogin(at)[..1] == [register] && [register][..0] == [];
    var s := Exec(cfg, NOBODY, [register]);
    assert Exec(cfg, NOBODY, []) == NOBODY;
    assert NOBODY.passwords["ada" := "secret"] == map["ada" := "secret"];
    assert s == NOBODY.(passwords := map["ada" := "secret"]);
    assert Enabled(s, login);
    var t := Exec(cfg, NOBODY, OneLogin(at));
    assert t == ExecLogin(cfg, s, "ada", "secret", login.access, login.refresh, None).0;
    assert t.logins[0].recorded && t.logins[0].refreshToken == Some("r");
  }

  const SECOND: int := 1_000_000_000

  /** app.env: 15 minutes and 24 hours. */
  const DEPLOYED: Config := Config(15 * 60 * SECOND, 24 * 60 * 60 * SECOND)

  /** The branch is reachable with the deployed durations, in two ways: a login at time 0, whose
      expiry is stored as it is, and a renewal that verifies the token at the very expiry and checks
      the session any time later; and a login at 400 ns, whose stored expiry is 400 ns too early, and
      a renewal without any pause 200 ns before the real one. */
  lemma SessionExpiryBranchReachable(pause: nat)
    ensures var s := Exec(DEPLOYED, NOBODY, OneLogin(0));
            var expiry := DEPLOYED.refreshDuration;
            && StoreTime(expiry) == expiry
            && (pause > 0 ==> Guards(s, "r", expiry, expiry + pause, None) == Invalid(ExpiredSession))
    ensures var s := Exec(DEPLOYED, NOBODY, OneLogin(400));
            var now := DEPLOYED.refreshDuration + 200;
            Guards(s, "r", now, now, None) == Invalid(ExpiredSession)
  {
    OneLoginRuns(DEPLOYED, 0);
    OneLoginRuns(DEPLOYED, 400);
    var expiry := DEPLOYED.refreshDuration;
    GuardsThatFire(DEPLOYED, OneLogin(0), "r", expiry, expiry + pause);
    GuardsThatFire(DEPLOYED, OneLogin(400), "r", expiry + 200, expiry + 200);
    hide Exec;
    hide Guards;
    hide Recorded;
    hide Blocked;
  }

  /* ---- Every answer of a login ---- */

  /** The password that the last `SetPassword` of the run set for the user, if there was one. */
  function LastPassword(events: seq<Event>, username: string): Option<string> {
    if |events| == 0 then None
    else
      var e := events[|events| - 1];
      if e.SetPassword? && e.username == username then Some(e.password)
      else LastPassword(events[..|events| - 1], username)
  }

  lemma PasswordKept(cfg: Config, s: State, e: Event)
    ensures Apply(cfg, s, e).passwords
            == if e.SetPassword? then s.passwords[e.username := e.password] else s.passwords
  {
  }

  lemma {:induction false} PasswordIsLast(cfg: Config, events: seq<Event>, username: string)
    ensures var s := Exec(cfg, NOBODY, events);
            LastPassword(events, username) == if username in s.passwords then Some(s.passwords[username]) else None
  {
    if |events| == 0 {
    } else {
      PasswordIsLast(cfg, events[..|events| - 1], username);
      PasswordKept(cfg, Exec(cfg, NOBODY, events[..|events| - 1]), events[|events| - 1]);
      hide Apply;
    }
  }

  /** The request of a login, in characters and numbers. */
  predicate WellFormed(username: string, password: string) {
    && |username| >= 1 && |password| >= 6
    && forall c | c in username :: 'a' <= c <= 'z' || 'A' <= c <= 'Z' || '0' <= c <= '9'
  }

  /** After any run a login is answered with tokens if and only if the request is well formed, the last
      password set for the user is this one, and no call fails; and each refusal is exactly in its case.
      The answer names the session of the refresh token, both tokens and when they expire. */
  lemma LoginAnswers(cfg: Config, events: seq<Event>, e: Event)
    requires e.LoginUser? && Enabled(Exec(cfg, NOBODY, events), e)
    ensures var s := Exec(cfg, NOBODY, events);
            var answer := Response(cfg, s, e);
            var looksUp := WellFormed(e.username, e.password) && e.broken != Some(FindUser);
            var passes := looksUp && LastPassword(events, e.username) == Some(e.password);
            && (answer == LoginRejected(BadLogin) <==> !WellFormed(e.username, e.password))
            && (answer == LoginRejected(UnknownUser) <==> looksUp && LastPassword(events, e.username) == None)
            && (answer == LoginRejected(WrongPassword) <==>
                && looksUp && LastPassword(events, e.username) != None
                && LastPassword(events, e.username) != Some(e.password))
            && (answer == LoginRejected(LoginFault) <==>
                || (WellFormed(e.username, e.password) && e.broken == Some(FindUser))
                || (passes && e.broken in {Some(MintAccess), Some(MintRefresh), Some(InsertSession)}))
            && (answer.LoggedIn? <==>
                passes && e.broken !in {Some(MintAccess), Some(MintRefresh), Some(InsertSession)})
            && (answer.LoggedIn? ==>
                answer == LoggedIn(e.refresh.id, e.access.token, e.access.at + cfg.accessDuration,
                                   e.refresh.token, e.refresh.at + cfg.refreshDuration))
            && (!passes ==> Apply(cfg, s, e) == s)
  {
    var s := Exec(cfg, NOBODY, events);
    ExecKeepsInv(cfg, events);
    PasswordIsLast(cfg, events, e.username);
    DrawnIdHasNoSession(s, e.refresh);
    WellFormedIff(e.username, e.password);
    hide Exec;
    hide Inv;
    hide FreshDraw;
    hide WellFormed;
    hide IsAlphanum;
    hide LastPassword;
  }

  lemma WellFormedIff(username: string, password: string)
    ensures WellFormed(username, password) <==> IsAlphanum(username) && |password| >= 6
  {
    if IsAlphanum(username) {
      forall c | c in username
        ensures 'a' <= c <= 'z' || 'A' <= c <= 'Z' || '0' <= c <= '9'
      {
        var i :| 0 <= i < |username| && username[i] == c;
      }
    }
    if WellFormed(username, password) {
      forall i | 0 <= i < |username|
        ensures 'a' <= username[i] <= 'z' || 'A' <= username[i] <= 'Z' || '0' <= username[i] <= '9'
      {
        assert username[i] in username;
      }
    }
  }

  /* ---- What is issued and what it is good for, in every continuation of the run ---- */

  lemma ApplyKeepsMinted(cfg: Config, s: State, e: Event, token: string)
    requires token in s.minted && token in s.origin && s.origin[token].login < |s.logins|
    ensures var s' := Apply(cfg, s, e);
            && token in s'.minted && s'.minted[token] == s.minted[token]
            && token in s'.origin && s'.origin[token] == s.origin[token]
            && s.logins <= s'.logins
  {
  }

  /** Nothing that happens later changes what a signed string stands for. */
  lemma {:induction false} MintedStays(cfg: Config, s: State, rest: seq<Event>, token: string)
    requires token in s.minted && token in s.origin && s.origin[token].login < |s.logins|
    ensures var t := Exec(cfg, s, rest);
            && token in t.minted && t.minted[token] == s.minted[token]
            && token in t.origin && t.origin[token] == s.origin[token]
            && s.logins <= t.logins
  {
    if |rest| == 0 {
    } else {
      MintedStays(cfg, s, rest[..|rest| - 1], token);
      ApplyKeepsMinted(cfg, Exec(cfg, s, rest[..|rest| - 1]), rest[|rest| - 1], token);
      hide Apply;
    }
  }

  /** What verifying a string that was made for `d` must answer. */
  function Expected(d: Draw, username: string, duration: int, now: int): Verified {
    if now <= d.at + duration then Valid(Payload(d.id, username, d.issuedAt, d.at + duration))
    else Invalid(ExpiredToken)
  }

  /** Round trip: whatever happens after a login, both tokens it handed out verify to the payloads
      they were made for, up to and including the instant `duration` later, and never afterwards. */
  lemma LoginTokensVerify(cfg: Config, events: seq<Event>, e: Event, rest: seq<Event>, now: int)
    requires e.LoginUser? && Enabled(Exec(cfg, NOBODY, events), e)
    requires Response(cfg, Exec(cfg, NOBODY, events), e).LoggedIn?
    ensures var s := Exec(cfg, NOBODY, events);
            var response := Response(cfg, s, e);
            var minted := Exec(cfg, Apply(cfg, s, e), rest).minted;
            && Verify(minted, response.accessToken, now)
               == Expected(e.access, e.username, cfg.accessDuration, now)
            && Verify(minted, response.refreshToken, now)
               == Expected(e.refresh, e.username, cfg.refreshDuration, now)
  {
    var s := Exec(cfg, NOBODY, events);
    LoginMints(cfg, s, e);
    MintedStays(cfg, Apply(cfg, s, e), rest, e.access.token);
    MintedStays(cfg, Apply(cfg, s, e), rest, e.refresh.token);
    hide Exec;
    hide Apply;
    hide Enabled;
    hide Response;
  }

  lemma LoginMints(cfg: Config, s: State, e: Event)
    requires e.LoginUser? && Enabled(s, e) && Response(cfg, s, e).LoggedIn?
    ensures var s' := Apply(cfg, s, e);
            var response := Response(cfg, s, e);
            && response.accessToken == e.access.token && e.access.token in s'.minted
            && response.refreshToken == e.refresh.token && e.refresh.token in s'.minted
            && s'.minted[e.access.token] == NewPayload(e.access, e.username, cfg.accessDuration)
            && s'.minted[e.refresh.token] == NewPayload(e.refresh, e.username, cfg.refreshDuration)
            && e.access.token in s'.origin && s'.origin[e.access.token].login < |s'.logins|
            && e.refresh.token in s'.origin && s'.origin[e.refresh.token].login < |s'.logins|
  {
    hide FreshDraw;
  }

  /** The same of the token that a renewal hands out, for the user of the refresh token. */
  lemma RenewedTokenVerifies(cfg: Config, events: seq<Event>, e: Event, rest: seq<Event>, now: int)
    requires e.Renew? && Enabled(Exec(cfg, NOBODY, events), e)
    requires Renewal(cfg, Exec(cfg, NOBODY, events), e).Renewed?
    ensures var s := Exec(cfg, NOBODY, events);
            var minted := Exec(cfg, Apply(cfg, s, e), rest).minted;
            && e.token in s.minted
            && Verify(minted, Renewal(cfg, s, e).accessToken, now)
               == Expected(e.access, s.minted[e.token].username, cfg.accessDuration, now)
  {
    var s := Exec(cfg, NOBODY, events);
    ExecKeepsInv(cfg, events);
    RenewalMints(cfg, s, e);
    MintedStays(cfg, Apply(cfg, s, e), rest, e.access.token);
    hide Exec;
    hide Apply;
    hide Enabled;
    hide Inv;
    hide Renewal;
  }

  lemma RenewalMints(cfg: Config, s: State, e: Event)
    requires Inv(cfg, s) && e.Renew? && Enabled(s, e) && Renewal(cfg, s, e).Renewed?
    ensures var s' := Apply(cfg, s, e);
            && e.token in s.minted
            && Renewal(cfg, s, e).accessToken == e.access.token && e.access.token in s'.minted
            && s'.minted[e.access.token] == NewPayload(e.access, s.minted[e.token].username, cfg.accessDuration)
            && e.access.token in s'.origin && s'.origin[e.access.token].login < |s'.logins|
  {
    assert Descends(cfg, s, e.token);
    hide FreshDraw;
    hide UniqueIds;
    hide SessionsMatch;
    hide LoginsRecorded;
  }

  function Response(cfg: Config, s: State, e: Event): LoginResponse
    requires e.LoginUser?
  {
    ExecLogin(cfg, s, e.username, e.password, e.access, e.refresh, e.broken).1
  }

  function Renewal(cfg: Config, s: State, e: Event): RenewResponse
    requires e.Renew?
  {
    ExecRenew(cfg, s, e.token, e.verifiedAt, e.checkedAt, e.access, e.broken).1
  }

  /** The flag that the operator's last change left, if there was one. */
  function BlockedAfter(before: bool, rest: seq<Event>, id: nat): bool {
    if |rest| == 0 then before
    else
      var e := rest[|rest| - 1];
      if e.SetBlocked? && e.id == id then e.blocked else BlockedAfter(before, rest[..|rest| - 1], id)
  }

  lemma SessionKept(cfg: Config, s: State, e: Event, id: nat)
    requires Inv(cfg, s) && id in s.sessions
    ensures id in Apply(cfg, s, e).sessions
    ensures Apply(cfg, s, e).sessions[id]
            == s.sessions[id].(isBlocked := if e.SetBlocked? && e.id == id then e.blocked else s.sessions[id].isBlocked)
  {
    assert SessionMatches(s, id);
  }

  /** A session row, once inserted, changes in its blocked flag only. */
  lemma {:induction false} SessionStays(cfg: Config, s: State, rest: seq<Event>, id: nat)
    requires Inv(cfg, s) && id in s.sessions
    ensures Inv(cfg, Exec(cfg, s, rest)) && id in Exec(cfg, s, rest).sessions
    ensures Exec(cfg, s, rest).sessions[id]
            == s.sessions[id].(isBlocked := BlockedAfter(s.sessions[id].isBlocked, rest, id))
  {
    if |rest| == 0 {
    } else {
      SessionStays(cfg, s, rest[..|rest| - 1], id);
      SessionKept(cfg, Exec(cfg, s, rest[..|rest| - 1]), rest[|rest| - 1], id);
      ApplyKeepsInv(cfg, Exec(cfg, s, rest[..|rest| - 1]), rest[|rest| - 1]);
      hide Inv;
      hide Apply;
    }
  }

  /** What a login is for: whatever happens afterwards, its refresh token renews if and only if the
      session it recorded is not blocked by then, the expiry is not past when the token is verified,
      and the stored expiry is not past when the session is checked. */
  lemma LoginCanRenew(cfg: Config, events: seq<Event>, login: Event, rest: seq<Event>,
                      verifiedAt: int, checkedAt: int, access: Draw)
    requires login.LoginUser? && Enabled(Exec(cfg, NOBODY, events), login)
    requires Response(cfg, Exec(cfg, NOBODY, events), login).LoggedIn?
    ensures var s := Apply(cfg, Exec(cfg, NOBODY, events), login);
            var expiry := login.refresh.at + cfg.refreshDuration;
            ExecRenew(cfg, Exec(cfg, s, rest), login.refresh.token, verifiedAt, checkedAt, access, None).1.Renewed?
            <==> !BlockedAfter(false, rest, login.refresh.id) && verifiedAt <= expiry && checkedAt <= StoreTime(expiry)
  {
    var s := Exec(cfg, NOBODY, events);
    var s' := Apply(cfg, s, login);
    ExecKeepsInv(cfg, events);
    ApplyKeepsInv(cfg, s, login);
    LoginMints(cfg, s, login);
    LoginRecordsSession(cfg, s, login);
    hide Apply;
    hide Response;
    hide Enabled;
    hide Inv;
    MintedStays(cfg, s', rest, login.refresh.token);
    SessionStays(cfg, s', rest, login.refresh.id);
    hide Exec;
    hide BlockedAfter;
  }

  lemma LoginRecordsSession(cfg: Config, s: State, e: Event)
    requires e.LoginUser? && Enabled(s, e) && Response(cfg, s, e).LoggedIn?
    ensures e.refresh.id in Apply(cfg, s, e).sessions && e.refresh.token != ""
    ensures Apply(cfg, s, e).sessions[e.refresh.id] ==
            Session(e.refresh.id, e.username, e.refresh.token, false, StoreTime(e.refresh.at + cfg.refreshDuration))
  {
    hide FreshDraw;
  }

  /** A string that is no refresh token when it is signed never becomes one. */
  lemma AccessStays(cfg: Config, s: State, rest: seq<Event>, token: string)
    requires token in s.minted && token in s.origin && s.origin[token].login < |s.logins| && !IsRefreshToken(s, token)
    ensures !IsRefreshToken(Exec(cfg, s, rest), token)
  {
    MintedStays(cfg, s, rest, token);
    hide Exec;
  }

  /** What an access token that stays within its time is answered: there is no session for it. */
  lemma NotRefreshNeverRenews(cfg: Config, s: State, token: string, verifiedAt: int, checkedAt: int, access: Draw,
                              broken: Option<Call>)
    requires Inv(cfg, s) && !IsRefreshToken(s, token) && token in s.minted
    ensures ExecRenew(cfg, s, token, verifiedAt, checkedAt, access, broken).1
            == RenewRejected(if s.minted[token].expiredAt < verifiedAt then ExpiredToken
                             else if broken == Some(FindSession) then RenewFault
                             else NoSession)
  {
    if s.minted[token].id in s.sessions {
      SessionOfToken(cfg, s, token);
    }
  }

  /** An access token never renews: neither the one a login handed out nor the one a renewal handed
      out, at any time, whatever happens after it was issued. Until it expires the answer is that there
      is no session for it, and then that it has expired. */
  lemma AccessTokenNeverRenews(cfg: Config, events: seq<Event>, e: Event, rest: seq<Event>,
                               verifiedAt: int, checkedAt: int, access: Draw, broken: Option<Call>)
    requires Enabled(Exec(cfg, NOBODY, events), e)
    requires var s := Exec(cfg, NOBODY, events);
             (e.LoginUser? && Response(cfg, s, e).LoggedIn?) || (e.Renew? && Renewal(cfg, s, e).Renewed?)
    ensures var issued := if e.LoginUser? then Response(cfg, Exec(cfg, NOBODY, events), e).accessToken
                          else Renewal(cfg, Exec(cfg, NOBODY, events), e).accessToken;
            var t := Exec(cfg, Apply(cfg, Exec(cfg, NOBODY, events), e), rest);
            && issued in t.minted
            && ExecRenew(cfg, t, issued, verifiedAt, checkedAt, access, broken).1
               == RenewRejected(if e.access.at + cfg.accessDuration < verifiedAt then ExpiredToken
                                else if broken == Some(FindSession) then RenewFault
                                else NoSession)
  {
    var s := Exec(cfg, NOBODY, events);
    var s' := Apply(cfg, s, e);
    ExecKeepsInv(cfg, events);
    ApplyKeepsInv(cfg, s, e);
    AccessIsNoRefresh(cfg, s, e);
    if e.LoginUser? {
      LoginMints(cfg, s, e);
    } else {
      RenewalMints(cfg, s, e);
    }
    hide Inv;
    hide Apply;
    hide Response;
    hide Renewal;
    hide Enabled;
    hide IsRefreshToken;
    MintedStays(cfg, s', rest, e.access.token);
    AccessStays(cfg, s', rest, e.access.token);
    ExecKeepsInvFrom(cfg, s', rest);
    NotRefreshNeverRenews(cfg, Exec(cfg, s', rest), e.access.token, verifiedAt, checkedAt, access, broken);
    hide Exec;
  }

  lemma AccessIsNoRefresh(cfg: Config, s: State, e: Event)
    requires Inv(cfg, s) && Enabled(s, e)
    requires (e.LoginUser? && Response(cfg, s, e).LoggedIn?) || (e.Renew? && Renewal(cfg, s, e).Renewed?)
    ensures !IsRefreshToken(Apply(cfg, s, e), e.access.token)
  {
    if e.Renew? {
      assert Descends(cfg, s, e.token);
      var i := s.origin[e.token].login;
      assert LoginRecorded(s, i);
    }
  }
}
