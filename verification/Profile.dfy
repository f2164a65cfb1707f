/** Partial user updates, and the login that observes them. A `char` stands for one byte, as in Go's
    `len`. Password hashing is idealised: a hash matches exactly the password it was made of.
    Whether an address parses is left to a parameter. */
module Profile {
  import opened Wrappers
  import opened Timestamps

  /* ---- val/validator.go ---- */

  predicate ValidateString(value: string, minLength: int, maxLength: int) {
    minLength <= |value| <= maxLength
  }

  predicate ValidateUsername(value: string) {
    && ValidateString(value, 3, 100)
    && forall i | 0 <= i < |value| :: 'a' <= value[i] <= 'z' || '0' <= value[i] <= '9' || value[i] == '_'
  }

  predicate ValidatePassword(value: string) {
    ValidateString(value, 6, 100)
  }

  predicate ValidateEmail(parses: string -> bool, value: string) {
    ValidateString(value, 5, 100) && parses(value)
  }

  predicate IsBlank(c: char) {
    c == ' ' || c == '\t' || c == '\n' || c == '\r' || c == '\U{0C}'
  }

  predicate ValidateFullName(value: string) {
    && ValidateString(value, 3, 100)
    && forall i | 0 <= i < |value| :: 'a' <= value[i] <= 'z' || 'A' <= value[i] <= 'Z' || IsBlank(value[i])
  }

  /* ---- Data ---- */

  datatype Hash = Hash(password: string, salt: nat)

  datatype User = User(username: string, hash: Hash, fullName: string, email: string, passwordChangedAt: int)

  datatype UpdateRequest = UpdateRequest(
    username: string, password: Option<string>, fullName: Option<string>, email: Option<string>)

  /** One call of the RPC: the authenticated caller, the request, the clock and the salt it reads
      (no salt: hashing failed), and whether the database fails for an outside reason. Calls are
      listed in the order of their UPDATE statements; their clock readings may be in any order. */
  datatype Call = Call(caller: Option<string>, req: UpdateRequest, now: int, salt: Option<nat>, fault: bool)

  datatype Code = OK | Unauthenticated | InvalidArgument | PermissionDenied | NotFound | Internal

  /** `sql.NullString`: not valid means NULL. */
  datatype Nullable<T> = Nullable(value: T, valid: bool)

  datatype UpdateArgs = UpdateArgs(
    username: string, hash: Option<Hash>, passwordChangedAt: Option<int>,
    fullName: Nullable<string>, email: Nullable<string>)

  function Get(field: Option<string>): string {
    if field.Some? then field.value else ""
  }

  /* ---- gapi/rpc_update_user.go ---- */

  function Violations(parses: string -> bool, req: UpdateRequest): seq<string> {
    (if ValidateUsername(req.username) then [] else ["username"])
    + (if req.password.Some? && !ValidatePassword(req.password.value) then ["password"] else [])
    + (if req.fullName.Some? && !ValidateFullName(req.fullName.value) then ["full_name"] else [])
    + (if req.email.Some? && !ValidateEmail(parses, req.email.value) then ["email"] else [])
  }

  /** The query arguments: an empty name or address is taken to mean "not given". */
  function BuildArgs(call: Call): UpdateArgs
    requires call.req.password.Some? ==> call.salt.Some?
  {
    var req := call.req;
    UpdateArgs(
      req.username,
      if req.password.Some? then Some(Hash(req.password.value, call.salt.value)) else None,
      if req.password.Some? then Some(call.now) else None,
      Nullable(Get(req.fullName), Get(req.fullName) != ""),
      Nullable(Get(req.email), Get(req.email) != ""))
  }

  /* ---- db/sqlc/user.sql.go ---- */

  function Coalesce<T>(x: Nullable<T>, old_: T): T {
    if x.valid then x.value else old_
  }

  function Merge(u: User, args: UpdateArgs): User {
    u.(hash := if args.hash.Some? then args.hash.value else u.hash,
       passwordChangedAt := if args.passwordChangedAt.Some? then StoreTime(args.passwordChangedAt.value)
                            else u.passwordChangedAt,
       fullName := Coalesce(args.fullName, u.fullName),
       email := Coalesce(args.email, u.email))
  }

  /** The unique constraint on addresses. */
  predicate EmailTaken(users: map<string, User>, username: string, email: string) {
    exists u | u in users :: u != username && users[u].email == email
  }

  function ExecUpdate(parses: string -> bool, users: map<string, User>, call: Call): (map<string, User>, Code) {
    if call.caller.None? then (users, Unauthenticated)
    else if Violations(parses, call.req) != [] then (users, InvalidArgument)
    else if call.caller.value != call.req.username then (users, PermissionDenied)
    else if call.req.password.Some? && call.salt.None? then (users, Internal)
    else if call.fault then (users, Internal)
    else if call.req.username !in users then (users, NotFound)
    else
      var u := Merge(users[call.req.username], BuildArgs(call));
      if EmailTaken(users, call.req.username, u.email) then (users, Internal)
      else (users[call.req.username := u], OK)
  }

  /** `util.CheckPassword` under the idealisation. */
  predicate CheckPassword(password: string, hash: Hash) {
    hash.password == password
  }

  /* ---- Runs ---- */

  function Run(parses: string -> bool, users: map<string, User>, calls: seq<Call>): map<string, User> {
    if |calls| == 0 then users
    else ExecUpdate(parses, Run(parses, users, calls[..|calls| - 1]), calls[|calls| - 1]).0
  }

  /** The calls of the run that were answered OK for one user. */
  function Accepted(parses: string -> bool, users: map<string, User>, calls: seq<Call>, username: string): seq<Call> {
    if |calls| == 0 then []
    else
      var before, call := calls[..|calls| - 1], calls[|calls| - 1];
      Accepted(parses, users, before, username)
      + (if call.req.username == username && ExecUpdate(parses, Run(parses, users, before), call).1 == OK
         then [call] else [])
  }

  /** Last write wins: the last value given, or the original. */
  function LastGiven<T>(given: seq<Option<T>>, original: T): T {
    if |given| == 0 then original
    else if given[|given| - 1].Some? then given[|given| - 1].value
    else LastGiven(given[..|given| - 1], original)
  }

  function Given<T>(calls: seq<Call>, field: Call -> Option<T>): (given: seq<Option<T>>)
    ensures |given| == |calls|
    ensures forall i | 0 <= i < |calls| :: given[i] == field(calls[i])
  {
    if |calls| == 0 then [] else Given(calls[..|calls| - 1], field) + [field(calls[|calls| - 1])]
  }

  function FullNameOf(call: Call): Option<string> {
    call.req.fullName
  }

  function EmailOf(call: Call): Option<string> {
    call.req.email
  }

  function PasswordOf(call: Call): Option<string> {
    call.req.password
  }

  /** When the call changes the password: the time it read, to the microsecond. */
  function ChangeTimeOf(call: Call): Option<int> {
    if call.req.password.Some? then Some(StoreTime(call.now)) else None
  }

  lemma LastGivenAppend<T>(calls: seq<Call>, call: Call, field: Call -> Option<T>, original: T)
    ensures LastGiven(Given(calls + [call], field), original)
            == if field(call).Some? then field(call).value else LastGiven(Given(calls, field), original)
  {
    assert (calls + [call])[..|calls|] == calls;
    var given := Given(calls + [call], field);
    assert given[..|given| - 1] == Given(calls, field);
  }

  /** What validation buys: a given name or address is never empty, so the sentinel is harmless. */
  lemma MergeWritesGivenFields(parses: string -> bool, u: User, call: Call)
    requires Violations(parses, call.req) == [] && (call.req.password.Some? ==> call.salt.Some?)
    ensures var v := Merge(u, BuildArgs(call));
            && v.username == u.username
            && v.fullName == (if FullNameOf(call).Some? then FullNameOf(call).value else u.fullName)
            && v.email == (if EmailOf(call).Some? then EmailOf(call).value else u.email)
            && v.hash.password == (if PasswordOf(call).Some? then PasswordOf(call).value else u.hash.password)
            && v.passwordChangedAt
               == (if ChangeTimeOf(call).Some? then ChangeTimeOf(call).value else u.passwordChangedAt)
  {
    assert call.req.fullName.Some? ==> |call.req.fullName.value| >= 3;
    assert call.req.email.Some? ==> |call.req.email.value| >= 5;
  }

  /** Without validation, the merge writes a name as given, whatever the row, if and only if the
      request does not give the empty name. */
  lemma EmptyNameIsNotWritten(call: Call)
    requires call.req.password.Some? ==> call.salt.Some?
    ensures (forall u: User :: Merge(u, BuildArgs(call)).fullName
                               == (if FullNameOf(call).Some? then FullNameOf(call).value else u.fullName))
            <==> call.req.fullName != Some("")
  {
    if call.req.fullName == Some("") {
      var u := User("ada", Hash("secret", 0), "Ada Lovelace", "ada@example.org", 0);
      assert Merge(u, BuildArgs(call)).fullName == u.fullName != "";
    }
  }

  predicate MatchesHistory(u: User, u0: User, accepted: seq<Call>) {
    && u.username == u0.username
    && u.fullName == LastGiven(Given(accepted, FullNameOf), u0.fullName)
    && u.email == LastGiven(Given(accepted, EmailOf), u0.email)
    && u.hash.password == LastGiven(Given(accepted, PasswordOf), u0.hash.password)
    && u.passwordChangedAt == LastGiven(Given(accepted, ChangeTimeOf), u0.passwordChangedAt)
  }

  /** A refused call changes nothing; an accepted one changes its own user only. */
  lemma UpdateTouchesOneUser(parses: string -> bool, users: map<string, User>, call: Call)
    ensures var (users', code) := ExecUpdate(parses, users, call);
            && users'.Keys == users.Keys
            && (code != OK ==> users' == users)
            && (forall u | u in users && u != call.req.username :: users'[u] == users[u])
            && (code == OK ==>
                  && call.req.username in users && Violations(parses, call.req) == []
                  && call.caller == Some(call.req.username)
                  && (call.req.password.Some? ==> call.salt.Some?)
                  && users'[call.req.username] == Merge(users[call.req.username], BuildArgs(call)))
  {
  }

  /** Partial updates refine last-write-per-field: after any calls, accepted or refused, by any
      users, every field of every user is the last value an accepted call gave it, or the original,
      and `password_changed_at` is the time the last password change read, as the column keeps it. */
  lemma {:induction false} LastWriteWins(parses: string -> bool, users: map<string, User>, calls: seq<Call>,
                                             username: string)
    requires username in users
    ensures username in Run(parses, users, calls)
    ensures MatchesHistory(Run(parses, users, calls)[username], users[username],
                           Accepted(parses, users, calls, username))
  {
    if |calls| == 0 {
    } else {
      var before, call := calls[..|calls| - 1], calls[|calls| - 1];
      LastWriteWins(parses, users, before, username);
      var now := Run(parses, users, before);
      var accepted := Accepted(parses, users, before, username);
      UpdateTouchesOneUser(parses, now, call);
      if call.req.username == username && ExecUpdate(parses, now, call).1 == OK {
        MergeWritesGivenFields(parses, now[username], call);
        LastGivenAppend(accepted, call, FullNameOf, users[username].fullName);
        LastGivenAppend(accepted, call, EmailOf, users[username].email);
        LastGivenAppend(accepted, call, PasswordOf, users[username].hash.password);
        LastGivenAppend(accepted, call, ChangeTimeOf, users[username].passwordChangedAt);
      } else {
        assert Accepted(parses, users, calls, username) == accepted;
      }
    }
  }

  /** The password check of a login passes exactly for the last password set. */
  lemma LoginSeesLastPassword(parses: string -> bool, users: map<string, User>, calls: seq<Call>,
                              username: string, password: string)
    requires username in users
    ensures username in Run(parses, users, calls)
    ensures CheckPassword(password, Run(parses, users, calls)[username].hash) <==>
            var given := Given(Accepted(parses, users, calls, username), PasswordOf);
            password == LastGiven(given, users[username].hash.password)
  {
    LastWriteWins(parses, users, calls, username);
  }

  /** Every accepted call was made by the user it changed, and passed validation. */
  lemma {:induction false} OnlyTheUserUpdates(parses: string -> bool, users: map<string, User>, calls: seq<Call>,
                                                  username: string)
    ensures forall i | 0 <= i < |Accepted(parses, users, calls, username)| ::
              var call := Accepted(parses, users, calls, username)[i];
              call.caller == Some(username) && call.req.username == username && Violations(parses, call.req) == []
  {
    if |calls| == 0 {
    } else {
      OnlyTheUserUpdates(parses, users, calls[..|calls| - 1], username);
    }
  }

  /* ---- Every answer of an update ---- */

  /** What the API asks of each field, in characters and numbers. */
  predicate GoodUsername(value: string) {
    3 <= |value| <= 100 && forall c | c in value :: 'a' <= c <= 'z' || '0' <= c <= '9' || c == '_'
  }

  predicate GoodPassword(value: string) {
    6 <= |value| <= 100
  }

  predicate GoodFullName(value: string) {
    && 3 <= |value| <= 100
    && forall c | c in value :: 'a' <= c <= 'z' || 'A' <= c <= 'Z' || c in {' ', '\t', '\n', '\r', '\U{0C}'}
  }

  predicate GoodEmail(parses: string -> bool, value: string) {
    5 <= |value| <= 100 && parses(value)
  }

  predicate GoodFields(parses: string -> bool, req: UpdateRequest) {
    && GoodUsername(req.username)
    && (req.password.Some? ==> GoodPassword(req.password.value))
    && (req.fullName.Some? ==> GoodFullName(req.fullName.value))
    && (req.email.Some? ==> GoodEmail(parses, req.email.value))
  }

  lemma UsernameIsChecked(value: string)
    ensures ValidateUsername(value) <==> GoodUsername(value)
  {
    forall c | c in value && ValidateUsername(value)
      ensures 'a' <= c <= 'z' || '0' <= c <= '9' || c == '_'
    {
      var i :| 0 <= i < |value| && value[i] == c;
    }
    forall i | 0 <= i < |value| && GoodUsername(value)
      ensures 'a' <= value[i] <= 'z' || '0' <= value[i] <= '9' || value[i] == '_'
    {
      assert value[i] in value;
    }
  }

  lemma FullNameIsChecked(value: string)
    ensures ValidateFullName(value) <==> GoodFullName(value)
  {
    forall c | c in value && ValidateFullName(value)
      ensures 'a' <= c <= 'z' || 'A' <= c <= 'Z' || c in {' ', '\t', '\n', '\r', '\U{0C}'}
    {
      var i :| 0 <= i < |value| && value[i] == c;
    }
    forall i | 0 <= i < |value| && GoodFullName(value)
      ensures 'a' <= value[i] <= 'z' || 'A' <= value[i] <= 'Z' || IsBlank(value[i])
    {
      assert value[i] in value;
    }
  }

  /** The validation finds nothing exactly when all fields are as the API asks. */
  lemma FieldsAreChecked(parses: string -> bool, req: UpdateRequest)
    ensures Violations(parses, req) == [] <==> GoodFields(parses, req)
  {
    UsernameIsChecked(req.username);
    if req.fullName.Some? {
      FullNameIsChecked(req.fullName.value);
    }
    hide ValidateUsername;
    hide GoodUsername;
    hide ValidateFullName;
    hide GoodFullName;
  }

  /** Where a field stands in the order of the checks. */
  function Position(field: string): nat {
    if field == "username" then 0 else if field == "password" then 1 else if field == "full_name" then 2 else 3
  }

  /** A list that names each of the four fields at most once, in order, as the flags say. */
  predicate Names(fields: seq<string>, username: bool, password: bool, fullName: bool, email: bool) {
    && ("username" in fields <==> username) && ("password" in fields <==> password)
    && ("full_name" in fields <==> fullName) && ("email" in fields <==> email)
    && forall i, j | 0 <= i < j < |fields| :: Position(fields[i]) < Position(fields[j])
  }

  lemma ListOfNames(username: bool, password: bool, fullName: bool, email: bool)
    ensures Names((if username then ["username"] else []) + (if password then ["password"] else [])
                  + (if fullName then ["full_name"] else []) + (if email then ["email"] else []),
                  username, password, fullName, email)
  {
  }

  /** Each violation is named exactly when its field is given and bad, in the order of the checks. */
  lemma ViolationsAreNamed(parses: string -> bool, req: UpdateRequest)
    ensures Names(Violations(parses, req),
                  !GoodUsername(req.username), req.password.Some? && !GoodPassword(req.password.value),
                  req.fullName.Some? && !GoodFullName(req.fullName.value),
                  req.email.Some? && !GoodEmail(parses, req.email.value))
  {
    UsernameIsChecked(req.username);
    FullNameIsChecked(Get(req.fullName));
    hide ValidateUsername;
    hide GoodUsername;
    hide ValidateFullName;
    hide GoodFullName;
    hide Names;
    ListOfNames(!GoodUsername(req.username), req.password.Some? && !GoodPassword(req.password.value),
                req.fullName.Some? && !GoodFullName(req.fullName.value),
                req.email.Some? && !GoodEmail(parses, req.email.value));
  }

  /** The unique constraint on addresses holds. */
  predicate DistinctEmails(users: map<string, User>) {
    forall u, v | u in users && v in users && u != v :: users[u].email != users[v].email
  }

  /** Somebody else has the address that the call gives. */
  predicate GivesTakenEmail(users: map<string, User>, req: UpdateRequest) {
    req.email.Some? && exists u | u in users :: u != req.username && users[u].email == req.email.value
  }

  lemma MergedEmail(parses: string -> bool, users: map<string, User>, call: Call)
    requires DistinctEmails(users) && call.req.username in users && GoodFields(parses, call.req)
    requires call.req.password.Some? ==> call.salt.Some?
    ensures EmailTaken(users, call.req.username, Merge(users[call.req.username], BuildArgs(call)).email)
            <==> GivesTakenEmail(users, call.req)
  {
    FieldsAreChecked(parses, call.req);
    MergeWritesGivenFields(parses, users[call.req.username], call);
    hide Merge;
    hide BuildArgs;
  }

  /** Addresses that are distinct stay so, whatever is called. */
  lemma {:induction false} EmailsStayDistinct(parses: string -> bool, users: map<string, User>, calls: seq<Call>)
    requires DistinctEmails(users)
    ensures DistinctEmails(Run(parses, users, calls))
  {
    if |calls| == 0 {
    } else {
      EmailsStayDistinct(parses, users, calls[..|calls| - 1]);
      var call := calls[|calls| - 1];
      UpdateTouchesOneUser(parses, Run(parses, users, calls[..|calls| - 1]), call);
    }
  }

  /** Every code of a call in its case. */
  predicate IsCodeOf(parses: string -> bool, users: map<string, User>, call: Call, code: Code) {
    var req := call.req;
    var admitted := call.caller == Some(req.username) && GoodFields(parses, req);
    var works := (req.password.Some? ==> call.salt.Some?) && !call.fault;
    && (code == Unauthenticated <==> call.caller == None)
    && (code == InvalidArgument <==> call.caller != None && !GoodFields(parses, req))
    && (code == PermissionDenied <==>
        call.caller != None && GoodFields(parses, req) && call.caller != Some(req.username))
    && (code == NotFound <==> admitted && works && req.username !in users)
    && (code == Internal <==>
        admitted && (!works || (req.username in users && GivesTakenEmail(users, req))))
    && (code == OK <==> admitted && works && req.username in users && !GivesTakenEmail(users, req))
  }

  /** The accepted call has written its own user, field by field, and nobody else. */
  predicate Writes(users: map<string, User>, users': map<string, User>, call: Call) {
    && users'.Keys == users.Keys
    && (forall u | u in users && u != call.req.username :: users'[u] == users[u])
    && call.req.username in users
    && var old_, new_ := users[call.req.username], users'[call.req.username];
    && new_.username == old_.username
    && new_.fullName == (if call.req.fullName.Some? then call.req.fullName.value else old_.fullName)
    && new_.email == (if call.req.email.Some? then call.req.email.value else old_.email)
    && (if call.req.password.Some? then
          && call.salt.Some? && new_.hash == Hash(call.req.password.value, call.salt.value)
          && new_.passwordChangedAt == StoreTime(call.now)
        else new_.hash == old_.hash && new_.passwordChangedAt == old_.passwordChangedAt)
  }

  lemma AnswersFromDistinct(parses: string -> bool, users: map<string, User>, call: Call)
    requires DistinctEmails(users)
    ensures var (users', code) := ExecUpdate(parses, users, call);
            && IsCodeOf(parses, users, call, code)
            && (if code == OK then Writes(users, users', call) else users' == users)
  {
    FieldsAreChecked(parses, call.req);
    if call.req.username in users && GoodFields(parses, call.req)
       && (call.req.password.Some? ==> call.salt.Some?) {
      MergedEmail(parses, users, call);
      MergeWritesGivenFields(parses, users[call.req.username], call);
    }
    hide GoodFields;
    hide Violations;
    hide EmailTaken;
    hide GivesTakenEmail;
  }

  /** After any calls on users with distinct addresses, a call is answered OK if and only if the caller
      is the user, all given fields are as asked, hashing and the database work, the user exists and
      nobody else has the address given; then it has written exactly what it gave. Each other code is
      in its case, and changes nothing. */
  lemma UpdateAnswers(parses: string -> bool, users: map<string, User>, calls: seq<Call>, call: Call)
    requires DistinctEmails(users)
    ensures var now := Run(parses, users, calls);
            var (users', code) := ExecUpdate(parses, now, call);
            && DistinctEmails(now) && DistinctEmails(users')
            && IsCodeOf(parses, now, call, code)
            && (if code == OK then Writes(now, users', call) else users' == now)
  {
    EmailsStayDistinct(parses, users, calls);
    AnswersFromDistinct(parses, Run(parses, users, calls), call);
    EmailsStayDistinct(parses, users, calls + [call]);
    assert (calls + [call])[..|calls|] == calls;
  }

  /* ---- The program ---- */

  class UserServer {
    const parses: string -> bool
    var users: map<string, User>

    constructor (parses: string -> bool)
      ensures this.parses == parses && users == map[]
    {
      this.parses := parses;
      users := map[];
    }

    method ValidateUpdateUserRequest(req: UpdateRequest) returns (violations: seq<string>)
      ensures violations == Violations(parses, req)
      ensures violations == [] <==> GoodFields(parses, req)
      ensures Names(violations,
                    !GoodUsername(req.username), req.password.Some? && !GoodPassword(req.password.value),
                    req.fullName.Some? && !GoodFullName(req.fullName.value),
                    req.email.Some? && !GoodEmail(parses, req.email.value))
    {
      FieldsAreChecked(parses, req);
      ViolationsAreNamed(parses, req);
      hide ValidateUsername;
      hide ValidateFullName;
      hide GoodFields;
      hide Names;
      violations := [];
      if !ValidateUsername(req.username) {
        violations := violations + ["username"];
      }
      if req.password.Some? {
        if !ValidatePassword(Get(req.password)) {
          violations := violations + ["password"];
        }
      }
      if req.fullName.Some? {
        if !ValidateFullName(Get(req.fullName)) {
          violations := violations + ["full_name"];
        }
      }
      if req.email.Some? {
        if !ValidateEmail(parses, Get(req.email)) {
          violations := violations + ["email"];
        }
      }
    }

    /** The UPDATE statement: no row, a unique violation, or the merged row. */
    method UpdateUserRow(args: UpdateArgs, fault: bool) returns (user: Option<User>, code: Code)
      modifies `users
      ensures code == if fault then Internal else if args.username !in old(users) then NotFound
                      else if EmailTaken(old(users), args.username, Merge(old(users)[args.username], args).email)
                      then Internal
                      else OK
      ensures code == OK <==>
              && !fault && args.username in old(users)
              && (forall u | u in old(users) && u != args.username ::
                    old(users)[u].email != if args.email.valid then args.email.value
                                           else old(users)[args.username].email)
      ensures code != OK ==> users == old(users)
      ensures code == OK ==> user == Some(Merge(old(users)[args.username], args))
      ensures code == OK ==> users == old(users)[args.username := user.value]
    {
      user := None;
      if fault {
        return None, Internal;
      }
      if args.username !in users {
        return None, NotFound;
      }
      var old_ := users[args.username];
      var row := old_;
      if args.hash.Some? {
        row := row.(hash := args.hash.value);
      }
      if args.passwordChangedAt.Some? {
        row := row.(passwordChangedAt := StoreTime(args.passwordChangedAt.value));
      }
      if args.fullName.valid {
        row := row.(fullName := args.fullName.value);
      }
      if args.email.valid {
        row := row.(email := args.email.value);
      }
      if exists u | u in users :: u != args.username && users[u].email == row.email {
        return None, Internal;
      }
      users := users[args.username := row];
      return Some(row), OK;
    }

    method UpdateUser(call: Call) returns (user: Option<User>, code: Code)
      modifies `users
      ensures (users, code) == ExecUpdate(parses, old(users), call)
      ensures old(DistinctEmails(users)) ==>
              && DistinctEmails(users) && IsCodeOf(parses, old(users), call, code)
              && (if code == OK then Writes(old(users), users, call) else users == old(users))
      ensures code == OK ==> call.req.username in users && user == Some(users[call.req.username])
    {
      if DistinctEmails(users) {
        UpdateAnswers(parses, users, [], call);
        assert Run(parses, users, []) == users;
      }
      user := None;
      if call.caller.None? {
        return None, Unauthenticated;
      }
      var req := call.req;
      var violations := ValidateUpdateUserRequest(req);
      if violations != [] {
        return None, InvalidArgument;
      }
      if call.caller.value != req.username {
        return None, PermissionDenied;
      }
      var args := UpdateArgs(req.username, None, None,
                             Nullable(Get(req.fullName), Get(req.fullName) != ""),
                             Nullable(Get(req.email), Get(req.email) != ""));
      if req.password.Some? {
        if call.salt.None? {
          return None, Internal;
        }
        args := args.(hash := Some(Hash(Get(req.password), call.salt.value)));
        args := args.(passwordChangedAt := Some(call.now));
      }
      user, code := UpdateUserRow(args, call.fault);
    }

    /** `LoginUser` up to its password check. */
    method CheckLogin(username: string, password: string, fault: bool) returns (code: Code)
      ensures code == InvalidArgument <==> !GoodUsername(username) || !GoodPassword(password)
      ensures code == Internal <==> code != InvalidArgument && fault
      ensures code == NotFound <==> code != InvalidArgument && !fault && username !in users
      ensures code == OK <==>
              && GoodUsername(username) && GoodPassword(password) && !fault
              && username in users && users[username].hash.password == password
      ensures code in {OK, InvalidArgument, Internal, NotFound, Unauthenticated}
    {
      UsernameIsChecked(username);
      if !ValidateUsername(username) || !ValidatePassword(password) {
        return InvalidArgument;
      }
      if fault {
        return Internal;
      }
      if username !in users {
        return NotFound;
      }
      if !CheckPassword(password, users[username].hash) {
        return Unauthenticated;
      }
      return OK;
    }
  }
}
