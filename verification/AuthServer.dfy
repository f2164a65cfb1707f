/** `loginUser` and `reNewAccessToken` as programs over a mutable session store, proved against the
    step system of `Tokens`. */
module AuthServers {
  import opened Wrappers
  import opened Timestamps
  import opened Tokens

  class AuthServer {
    const config: Config
    var passwords: map<string, string>
    var minted: map<string, Payload>
    var sessions: map<nat, Session>
    ghost var logins: seq<Login>
    ghost var origin: map<string, Origin>

    ghost function Model(): State
      reads this
    {
      State(passwords, minted, sessions, logins, origin)
    }

    constructor (config: Config)
      ensures this.config == config && Model() == NOBODY
    {
      this.config := config;
      passwords, minted, sessions := map[], map[], map[];
      logins, origin := [], map[];
    }

    /** `CreateToken`: a string that from now on stands for the payload, or nothing at all. */
    method CreateToken(username: string, duration: int, draw: Draw, fault: bool, ghost from: Origin)
      returns (token: Option<string>, payload: Payload)
      modifies `minted, `origin
      ensures payload == NewPayload(draw, username, duration)
      ensures token == if fault then None else Some(draw.token)
      ensures token == None ==> minted == old(minted) && origin == old(origin)
      ensures token.Some? ==>
              minted == old(minted)[token.value := payload] && origin == old(origin)[token.value := from]
    {
      payload := Payload(draw.id, username, draw.issuedAt, draw.at + duration);
      if fault {
        return None, payload;
      }
      token := Some(draw.token);
      minted := minted[draw.token := payload];
      origin := origin[draw.token := from];
    }

    /** Exactly the strings that were issued verify, up to and including their expiry. */
    method VerifyToken(token: string, now: int) returns (v: Verified)
      ensures v.Valid? <==> token in minted && now <= minted[token].expiredAt
      ensures v.Valid? ==> v.payload == minted[token]
      ensures v.Invalid? ==> (v.reason == InvalidToken <==> token !in minted)
      ensures v.Invalid? ==> (v.reason == ExpiredToken <==> token in minted)
    {
      if token !in minted {
        return Invalid(InvalidToken);
      }
      var payload := minted[token];
      if After(now, payload.expiredAt) {
        return Invalid(ExpiredToken);
      }
      return Valid(payload);
    }

    /** Inserts a row under a new id, unblocked; an id that is taken keeps the row it has. */
    method CreateSession(id: nat, username: string, refreshToken: string, expiredAt: int, fault: bool)
      returns (session: Option<Session>)
      modifies `sessions
      ensures session.Some? <==> id !in old(sessions) && !fault
      ensures forall other | other in old(sessions) :: other in sessions && sessions[other] == old(sessions)[other]
      ensures sessions.Keys == old(sessions).Keys + if session.Some? then {id} else {}
      ensures session.Some? ==> sessions[id] == session.value
      ensures session.Some? ==> session.value == Session(id, username, refreshToken, false, StoreTime(expiredAt))
    {
      if fault || id in sessions {
        return None;
      }
      session := Some(Session(id, username, refreshToken, false, StoreTime(expiredAt)));
      sessions := sessions[id := session.value];
    }

    method GetSession(id: nat) returns (session: Option<Session>)
      ensures session == if id in sessions then Some(sessions[id]) else None
    {
      if id in sessions {
        return Some(sessions[id]);
      }
      return None;
    }

    /** The answer and the new state are those of the step system. */
    method HandleLogin(username: string, password: string, access: Draw, refresh: Draw, broken: Option<Call>)
      returns (response: LoginResponse)
      modifies this
      ensures (Model(), response) == ExecLogin(config, old(Model()), username, password, access, refresh, broken)
      ensures response == LoginRejected(BadLogin) <==> !WellFormed(username, password)
      ensures response == LoginRejected(UnknownUser) <==>
              WellFormed(username, password) && broken != Some(FindUser) && username !in old(passwords)
      ensures response == LoginRejected(WrongPassword) <==>
              && WellFormed(username, password) && broken != Some(FindUser)
              && username in old(passwords) && old(passwords)[username] != password
      ensures response.LoggedIn? <==>
              && WellFormed(username, password) && username in old(passwords) && old(passwords)[username] == password
              && broken !in {Some(FindUser), Some(MintAccess), Some(MintRefresh), Some(InsertSession)}
              && refresh.id !in old(sessions)
      ensures response.LoggedIn? ==>
              response == LoggedIn(refresh.id, access.token, access.at + config.accessDuration,
                                   refresh.token, refresh.at + config.refreshDuration)
    {
      WellFormedIff(username, password);
      hide WellFormed;
      hide IsAlphanum;
      if !IsAlphanum(username) || |password| < 6 {
        return LoginRejected(BadLogin);
      }
      if broken == Some(FindUser) {
        return LoginRejected(LoginFault);
      }
      if username !in passwords {
        return LoginRejected(UnknownUser);
      }
      if passwords[username] != password {
        return LoginRejected(WrongPassword);
      }
      var accessToken, accessPayload :=
        CreateToken(username, config.accessDuration, access, broken == Some(MintAccess), Origin(|logins|, 0));
      if accessToken == None {
        return LoginRejected(LoginFault);
      }
      var refreshToken, refreshPayload :=
        CreateToken(username, config.refreshDuration, refresh, broken == Some(MintRefresh),
                    Origin(|logins|, refresh.at - access.at));
      if refreshToken == None {
        logins := logins + [Login(username, access.at, None, false)];
        return LoginRejected(LoginFault);
      }
      var session := CreateSession(refreshPayload.id, username, refreshToken.value, refreshPayload.expiredAt,
                                   broken == Some(InsertSession));
      logins := logins + [Login(username, access.at, refreshToken, session.Some?)];
      if session == None {
        assert sessions == old(sessions);
        return LoginRejected(LoginFault);
      }
      assert sessions == old(sessions)[refreshPayload.id := session.value];
      return LoggedIn(session.value.id, accessToken.value, accessPayload.expiredAt,
                      refreshToken.value, refreshPayload.expiredAt);
    }

    /** The guard chain in the order of the handler. From any state that keeps the invariant, hence
        any reachable one, the answer is a token exactly for a recorded, unblocked, unexpired refresh
        token; and nothing but one access token is ever added. */
    method HandleRenew(token: string, verifiedAt: int, checkedAt: int, access: Draw, broken: Option<Call>)
      returns (response: RenewResponse)
      requires Inv(config, Model()) && Enabled(Model(), Renew(token, verifiedAt, checkedAt, access, broken))
      modifies `minted, `origin
      ensures (Model(), response) == ExecRenew(config, old(Model()), token, verifiedAt, checkedAt, access, broken)
      ensures Inv(config, Model())
      ensures response.Renewed? <==>
              && broken != Some(FindSession) && broken != Some(MintAccess)
              && old(Recorded(Model(), token) && !Blocked(Model(), token)) && token in old(minted)
              && verifiedAt <= old(minted)[token].expiredAt && checkedAt <= StoreTime(old(minted)[token].expiredAt)
      ensures IsAnswerTo(old(Model()), token, verifiedAt, checkedAt, broken, response)
      ensures response.RenewRejected? ==> minted == old(minted)
      ensures response.Renewed? ==>
              && response.accessToken == access.token && response.accessExpiredAt == access.at + config.accessDuration
              && minted == old(minted)[access.token := Payload(access.id, old(minted)[token].username, access.issuedAt,
                                                               response.accessExpiredAt)]
    {
      hide Inv;
      hide Enabled;
      hide Recorded;
      hide Blocked;
      hide StoreTime;
      hide RenewedOrigin;
      RenewKeepsInv(config, Model(), token, verifiedAt, checkedAt, access, broken);
      AnswersFromInv(config, Model(), token, verifiedAt, checkedAt, access, broken);
      if token == "" {
        return RenewRejected(BadRequest);
      }
      var verified := VerifyToken(token, verifiedAt);
      if verified.Invalid? {
        return RenewRejected(verified.reason);
      }
      var refreshPayload := verified.payload;
      if broken == Some(FindSession) {
        return RenewRejected(RenewFault);
      }
      var found := GetSession(refreshPayload.id);
      if found == None {
        return RenewRejected(NoSession);
      }
      var session := found.value;
      if session.isBlocked {
        return RenewRejected(SessionBlocked);
      }
      if session.username != refreshPayload.username {
        return RenewRejected(IncorrectUser);
      }
      if session.refreshToken != token {
        return RenewRejected(IncorrectToken);
      }
      if After(checkedAt, session.expiredAt) {
        return RenewRejected(ExpiredSession);
      }
      var accessToken, accessPayload := CreateToken(refreshPayload.username, config.accessDuration, access,
                                                    broken == Some(MintAccess),
                                                    RenewedOrigin(Model(), token, verifiedAt, access.at));
      if accessToken == None {
        return RenewRejected(RenewFault);
      }
      return Renewed(accessToken.value, accessPayload.expiredAt);
    }
  }
}
