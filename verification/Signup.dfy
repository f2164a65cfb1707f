/** Creating a user and enqueueing the verify-email task, as a step system: create transactions
    (insert, callback, commit), the one-statement `createUser` of the HTTP API, and a worker that
    reads committed users only. A task is enqueued before the commit, and due ten seconds later: the
    worker may see it before its user. Once due it may be attempted at any time: however long the
    worker waits between retries, its run is one of these. */
module Signup {
  import opened Wrappers

  datatype Params = Params(username: string, hashedPassword: string, fullName: string, email: string)

  datatype Status = OK | AlreadyExists | InternalError

  datatype Stage = InsertUser | AfterCreate | Commit | Rollback(clash: bool) | Done(status: Status)

  datatype Request = Request(params: Params, stage: Stage)

  /** A committed row. History: the `CreateUserTx` request it comes from, if any, and when it was
      committed. */
  datatype User = User(params: Params, creator: Option<nat>, committedAt: nat)

  datatype TaskStatus = Queued | Completed | Archived

  /** `failures` counts failed attempts; `origin` is history: the request that enqueued it. */
  datatype Task = Task(username: string, origin: nat, enqueuedAt: nat, status: TaskStatus, failures: nat)

  /** The clock counts seconds. */
  datatype State = State(users: map<string, User>, requests: seq<Request>, tasks: seq<Task>, clock: nat)

  const MAX_RETRY: nat := 10
  const PROCESS_IN: nat := 10

  datatype Event =
    | Begin(params: Params)          // a validated gRPC request opens its transaction
    | CreateDirectly(params: Params) // the HTTP handler: one INSERT, no task
    | Step(pid: nat)
    | Fail(pid: nat)                 // the statement, the enqueue or the commit fails
    | Work(task: nat)                // the worker attempts a task
    | WorkFail(task: nat)            // an attempt whose read fails for an outside reason
    | Tick(seconds: nat)

  /** Inserted, not yet committed: the transaction holds its two unique keys. */
  predicate Holding(r: Request) {
    r.stage.AfterCreate? || r.stage.Commit?
  }

  predicate Clash(x: Params, y: Params) {
    x.username == y.username || x.email == y.email
  }

  /** An INSERT waits while another open transaction has inserted one of its keys. */
  predicate MustWait(s: State, params: Params) {
    exists q | 0 <= q < |s.requests| :: Holding(s.requests[q]) && Clash(s.requests[q].params, params)
  }

  predicate Taken(s: State, params: Params) {
    params.username in s.users || exists u | u in s.users :: s.users[u].params.email == params.email
  }

  predicate Unfinished(s: State, pid: nat) {
    pid < |s.requests| && !s.requests[pid].stage.Done?
  }

  predicate IsQueued(s: State, k: nat) {
    k < |s.tasks| && s.tasks[k].status.Queued?
  }

  /** The worker may attempt it. */
  predicate IsDue(s: State, k: nat) {
    IsQueued(s, k) && s.clock >= s.tasks[k].enqueuedAt + PROCESS_IN
  }

  predicate Enabled(s: State, e: Event) {
    match e
    case Begin(_) => true
    case CreateDirectly(params) => !MustWait(s, params)
    case Step(pid) => Unfinished(s, pid) && (s.requests[pid].stage.InsertUser? ==> !MustWait(s, s.requests[pid].params))
    case Fail(pid) => Unfinished(s, pid)
    case Work(k) => IsDue(s, k)
    case WorkFail(k) => IsDue(s, k)
    case Tick(_) => true
  }

  function Goto(s: State, pid: nat, stage: Stage): State
    requires pid < |s.requests|
  {
    s.(requests := s.requests[pid := s.requests[pid].(stage := stage)])
  }

  function ExecStep(s: State, pid: nat): State
    requires Unfinished(s, pid)
  {
    var r := s.requests[pid];
    match r.stage
    case InsertUser => Goto(s, pid, if Taken(s, r.params) then Rollback(true) else AfterCreate)
    case AfterCreate => Goto(s.(tasks := s.tasks + [Task(r.params.username, pid, s.clock, Queued, 0)]), pid, Commit)
    case Commit => Goto(s.(users := s.users[r.params.username := User(r.params, Some(pid), s.clock)]), pid, Done(OK))
    case Rollback(clash) => Goto(s, pid, Done(if clash then AlreadyExists else InternalError))
  }

  function ExecFail(s: State, pid: nat): State
    requires Unfinished(s, pid)
  {
    match s.requests[pid].stage
    case InsertUser | AfterCreate => Goto(s, pid, Rollback(false))
    case Commit | Rollback(_) => Goto(s, pid, Done(InternalError))
  }

  /** A failed attempt is retried, up to `MaxRetry` times. */
  function FailedAttempt(t: Task): Task {
    t.(failures := t.failures + 1, status := if t.failures < MAX_RETRY then Queued else Archived)
  }

  function ExecWork(s: State, k: nat): State
    requires IsQueued(s, k)
  {
    var t := s.tasks[k];
    s.(tasks := s.tasks[k := if t.username in s.users then t.(status := Completed) else FailedAttempt(t)])
  }

  function Apply(s: State, e: Event): State {
    if !Enabled(s, e) then s
    else match e
      case Begin(params) => s.(requests := s.requests + [Request(params, InsertUser)])
      case CreateDirectly(params) =>
        if Taken(s, params) then s else s.(users := s.users[params.username := User(params, None, s.clock)])
      case Step(pid) => ExecStep(s, pid)
      case Fail(pid) => ExecFail(s, pid)
      case Work(k) => ExecWork(s, k)
      case WorkFail(k) => s.(tasks := s.tasks[k := FailedAttempt(s.tasks[k])])
      case Tick(seconds) => s.(clock := s.clock + seconds)
  }

  function Exec(s: State, events: seq<Event>): State {
    if |events| == 0 then s else Apply(Exec(s, events[..|events| - 1]), events[|events| - 1])
  }

  lemma ExecOneMore(s: State, es: seq<Event>, e: Event)
    ensures Exec(s, es + [e]) == Apply(Exec(s, es), e)
  {
    assert (es + [e])[..|es|] == es;
  }

  const EMPTY: State := State(map[], [], [], 0)

  /* ---- Invariant ---- */

  /** Nobody else, committed or open, has a key that an open transaction has inserted. */
  predicate KeysHeld(s: State) {
    && (forall p | 0 <= p < |s.requests| && Holding(s.requests[p]) :: !Taken(s, s.requests[p].params))
    && (forall p, q | 0 <= p < q < |s.requests| && Holding(s.requests[p]) && Holding(s.requests[q]) ::
          !Clash(s.requests[p].params, s.requests[q].params))
  }

  predicate UsersWellFormed(s: State) {
    && (forall u | u in s.users :: s.users[u].params.username == u)
    && (forall u, v | u in s.users && v in s.users && s.users[u].params.email == s.users[v].params.email :: u == v)
  }

  predicate CreatorsMatch(s: State) {
    && (forall u | u in s.users && s.users[u].creator.Some? ::
          && s.users[u].creator.value < |s.requests|
          && s.requests[s.users[u].creator.value] == Request(s.users[u].params, Done(OK)))
    && (forall p | 0 <= p < |s.requests| && s.requests[p].stage == Done(OK) ::
          && s.requests[p].params.username in s.users
          && s.users[s.requests[p].params.username].params == s.requests[p].params
          && s.users[s.requests[p].params.username].creator == Some(p))
  }

  predicate IsTaskOf(s: State, k: nat, p: nat) {
    k < |s.tasks| && s.tasks[k].origin == p
  }

  predicate HasTask(s: State, p: nat) {
    exists k: nat :: k < |s.tasks| && IsTaskOf(s, k, p)
  }

  predicate TaskOrigins(s: State) {
    && (forall k | 0 <= k < |s.tasks| ::
          && s.tasks[k].origin < |s.requests|
          && s.tasks[k].username == s.requests[s.tasks[k].origin].params.username
          && (s.requests[s.tasks[k].origin].stage.Commit? || s.requests[s.tasks[k].origin].stage.Done?))
    && (forall j, k | 0 <= j < k < |s.tasks| :: s.tasks[j].origin != s.tasks[k].origin)
  }

  predicate TasksMatch(s: State) {
    && TaskOrigins(s)
    && (forall p | 0 <= p < |s.requests| && (s.requests[p].stage.Commit? || s.requests[p].stage == Done(OK)) ::
          HasTask(s, p))
  }

  predicate AttemptsMatch(s: State) {
    forall k | 0 <= k < |s.tasks| :: TaskSound(s, s.tasks[k])
  }

  predicate TaskSound(s: State, t: Task) {
    match t.status
    case Completed => t.username in s.users && t.failures <= MAX_RETRY
    case Queued => t.failures <= MAX_RETRY
    case Archived => t.failures == MAX_RETRY + 1
  }

  predicate Inv(s: State) {
    KeysHeld(s) && UsersWellFormed(s) && CreatorsMatch(s) && TasksMatch(s) && AttemptsMatch(s)
  }

  lemma InsertKeepsKeys(s: State, p: nat)
    requires KeysHeld(s) && p < |s.requests| && s.requests[p].stage.InsertUser?
    requires !MustWait(s, s.requests[p].params) && !Taken(s, s.requests[p].params)
    ensures KeysHeld(Goto(s, p, AfterCreate))
  {
  }

  lemma CommitKeepsKeys(s: State, p: nat)
    requires KeysHeld(s) && UsersWellFormed(s) && p < |s.requests| && s.requests[p].stage.Commit?
    ensures KeysHeld(ExecStep(s, p)) && UsersWellFormed(ExecStep(s, p))
  {
    var s' := ExecStep(s, p);
    assert Holding(s.requests[p]);
    forall q | 0 <= q < |s'.requests| && Holding(s'.requests[q])
      ensures !Taken(s', s'.requests[q].params)
    {
      assert Holding(s.requests[q]) && !Taken(s, s.requests[q].params);
      assert !Clash(s.requests[if p < q then p else q].params, s.requests[if p < q then q else p].params);
    }
  }

  /** A step that gives up keys, or keeps them. */
  lemma ReleaseKeepsKeys(s: State, s': State)
    requires KeysHeld(s) && s'.users == s.users && |s'.requests| == |s.requests|
    requires forall p | 0 <= p < |s.requests| :: s'.requests[p].params == s.requests[p].params
    requires forall p | 0 <= p < |s.requests| && Holding(s'.requests[p]) :: Holding(s.requests[p])
    ensures KeysHeld(s')
  {
  }

  lemma DirectKeepsKeys(s: State, params: Params)
    requires KeysHeld(s) && UsersWellFormed(s)
    ensures KeysHeld(Apply(s, CreateDirectly(params))) && UsersWellFormed(Apply(s, CreateDirectly(params)))
  {
  }

  lemma ApplyKeepsKeys(s: State, e: Event)
    requires KeysHeld(s) && UsersWellFormed(s)
    ensures KeysHeld(Apply(s, e)) && UsersWellFormed(Apply(s, e))
  {
    if Enabled(s, e) {
      match e
      case Begin(_) =>
      case CreateDirectly(params) => DirectKeepsKeys(s, params);
      case Step(p) =>
        var r := s.requests[p];
        if r.stage.InsertUser? && !Taken(s, r.params) {
          InsertKeepsKeys(s, p);
        } else if r.stage.Commit? {
          CommitKeepsKeys(s, p);
        } else {
          ReleaseKeepsKeys(s, Apply(s, e));
        }
      case Fail(_) => ReleaseKeepsKeys(s, Apply(s, e));
      case Work(_) =>
      case WorkFail(_) =>
      case Tick(_) =>
    }
  }

  lemma CommitKeepsCreators(s: State, p: nat)
    requires KeysHeld(s) && CreatorsMatch(s) && p < |s.requests| && s.requests[p].stage.Commit?
    ensures CreatorsMatch(ExecStep(s, p))
  {
    assert Holding(s.requests[p]);
    assert s.requests[p].params.username !in s.users;
    hide KeysHeld;
    hide Taken;
  }

  lemma ApplyKeepsCreators(s: State, e: Event)
    requires KeysHeld(s) && CreatorsMatch(s)
    ensures CreatorsMatch(Apply(s, e))
  {
    if Enabled(s, e) && e.Step? && s.requests[e.pid].stage.Commit? {
      CommitKeepsCreators(s, e.pid);
      hide CreatorsMatch;
    } else if Enabled(s, e) && (e.Step? || e.Fail?) {
      assert Apply(s, e).users == s.users;
      assert Apply(s, e).requests[e.pid].stage != Done(OK);
    }
    hide KeysHeld;
  }

  lemma OriginsKeptByRequests(s: State, s': State)
    requires TaskOrigins(s) && s'.tasks == s.tasks && |s'.requests| >= |s.requests|
    requires forall p | 0 <= p < |s.requests| :: s'.requests[p].params == s.requests[p].params
    requires forall p | 0 <= p < |s.requests| && (s.requests[p].stage.Commit? || s.requests[p].stage.Done?) ::
      s'.requests[p].stage.Commit? || s'.requests[p].stage.Done?
    ensures TaskOrigins(s')
  {
  }

  lemma OriginsKeptByEnqueue(s: State, p: nat)
    requires TaskOrigins(s) && p < |s.requests| && s.requests[p].stage.AfterCreate?
    ensures TaskOrigins(ExecStep(s, p))
  {
  }

  lemma OriginsKeptByAttempt(s: State, k: nat, t: Task)
    requires TaskOrigins(s) && k < |s.tasks| && t.origin == s.tasks[k].origin && t.username == s.tasks[k].username
    ensures TaskOrigins(s.(tasks := s.tasks[k := t]))
  {
  }

  lemma TaskOriginsKept(s: State, e: Event)
    requires TaskOrigins(s)
    ensures TaskOrigins(Apply(s, e))
  {
    hide TaskOrigins;
    if Enabled(s, e) {
      match e
      case Begin(_) => OriginsKeptByRequests(s, Apply(s, e));
      case CreateDirectly(_) => OriginsKeptByRequests(s, Apply(s, e));
      case Step(p) =>
        if s.requests[p].stage.AfterCreate? {
          OriginsKeptByEnqueue(s, p);
        } else {
          OriginsKeptByRequests(s, Apply(s, e));
        }
      case Fail(_) => OriginsKeptByRequests(s, Apply(s, e));
      case Work(k) => OriginsKeptByAttempt(s, k, Apply(s, e).tasks[k]);
      case WorkFail(k) => OriginsKeptByAttempt(s, k, Apply(s, e).tasks[k]);
      case Tick(_) => OriginsKeptByRequests(s, Apply(s, e));
    }
  }

  lemma TaskKept(s: State, e: Event, p: nat)
    requires TasksMatch(s) && p < |Apply(s, e).requests|
    requires var stage := Apply(s, e).requests[p].stage; stage.Commit? || stage == Done(OK)
    ensures HasTask(Apply(s, e), p)
  {
    var s' := Apply(s, e);
    if p < |s.requests| && (s.requests[p].stage.Commit? || s.requests[p].stage == Done(OK)) {
      var k: nat :| k < |s.tasks| && IsTaskOf(s, k, p);
      assert IsTaskOf(s', k, p);
    } else {
      assert e == Step(p) && s.requests[p].stage.AfterCreate?;
      assert IsTaskOf(s', |s.tasks|, p);
    }
    hide TaskOrigins;
  }

  lemma ApplyKeepsTasks(s: State, e: Event)
    requires TasksMatch(s)
    ensures TasksMatch(Apply(s, e))
  {
    var s' := Apply(s, e);
    TaskOriginsKept(s, e);
    hide Apply;
    hide HasTask;
    forall p | 0 <= p < |s'.requests| && (s'.requests[p].stage.Commit? || s'.requests[p].stage == Done(OK))
      ensures HasTask(s', p)
    {
      TaskKept(s, e, p);
    }
  }

  lemma ApplyKeepsAttempts(s: State, e: Event)
    requires AttemptsMatch(s)
    ensures AttemptsMatch(Apply(s, e))
  {
  }

  lemma {:induction false} ExecKeepsInv(events: seq<Event>)
    ensures Inv(Exec(EMPTY, events))
  {
    if |events| == 0 {
    } else {
      var before, e := events[..|events| - 1], events[|events| - 1];
      ExecKeepsInv(before);
      ApplyKeepsKeys(Exec(EMPTY, before), e);
      ApplyKeepsCreators(Exec(EMPTY, before), e);
      ApplyKeepsTasks(Exec(EMPTY, before), e);
      ApplyKeepsAttempts(Exec(EMPTY, before), e);
    }
  }

  /* ---- Main results ---- */

  /** Every committed user that came through `CreateUserTx` has had exactly one task enqueued, by
      the transaction that created it; and no two users share a name or an address. */
  lemma EveryUserHasItsTask(events: seq<Event>, username: string) returns (k: nat)
    requires var s := Exec(EMPTY, events); username in s.users && s.users[username].creator.Some?
    ensures var s := Exec(EMPTY, events);
            && k < |s.tasks| && s.tasks[k].username == username && s.tasks[k].origin == s.users[username].creator.value
            && (forall j | 0 <= j < |s.tasks| && j != k :: s.tasks[j].origin != s.tasks[k].origin)
            && UsersWellFormed(s)
  {
    var s := Exec(EMPTY, events);
    ExecKeepsInv(events);
    assert s.requests[s.users[username].creator.value].stage == Done(OK);
    assert HasTask(s, s.users[username].creator.value);
    k :| k < |s.tasks| && IsTaskOf(s, k, s.users[username].creator.value);
  }

  /** A request that ended in an error, a failed enqueue included, has left no user. */
  lemma FailedRequestLeavesNoUser(events: seq<Event>, pid: nat)
    requires var s := Exec(EMPTY, events); pid < |s.requests| && s.requests[pid].stage != Done(OK)
    ensures var s := Exec(EMPTY, events); forall u | u in s.users :: s.users[u].creator != Some(pid)
  {
    ExecKeepsInv(events);
  }

  /** The enqueue is the point of no return for the task, the commit for the user: a request has a
      task exactly from its successful enqueue on, whether or not it then commits. */
  lemma TaskWithoutUser(events: seq<Event>, k: nat)
    requires k < |Exec(EMPTY, events).tasks|
    ensures Exec(EMPTY, events).tasks[k].origin < |Exec(EMPTY, events).requests|
    ensures var s := Exec(EMPTY, events);
            var r := s.requests[s.tasks[k].origin];
            && r.params.username == s.tasks[k].username
            && (r.stage.Commit? || r.stage.Done?)
            && ((r.params.username in s.users && s.users[r.params.username].creator == Some(s.tasks[k].origin))
                <==> r.stage == Done(OK))
  {
    ExecKeepsInv(events);
  }

  /** A task completes only when its user is committed, and stays so. */
  lemma CompletedMeansCommitted(events: seq<Event>, k: nat)
    requires var s := Exec(EMPTY, events); k < |s.tasks| && s.tasks[k].status.Completed?
    ensures Exec(EMPTY, events).tasks[k].username in Exec(EMPTY, events).users
  {
    ExecKeepsInv(events);
    assert TaskSound(Exec(EMPTY, events), Exec(EMPTY, events).tasks[k]);
  }

  /** Once the user is committed, an undisturbed attempt of a queued task completes it, as soon as the
      task is due. */
  lemma CommittedTaskCompletes(events: seq<Event>, k: nat, wait: nat)
    requires var s := Exec(EMPTY, events); IsQueued(s, k) && s.tasks[k].origin < |s.requests|
    requires var s := Exec(EMPTY, events); s.requests[s.tasks[k].origin].stage == Done(OK)
    requires var s := Exec(EMPTY, events); s.clock + wait >= s.tasks[k].enqueuedAt + 10
    ensures var s := Exec(EMPTY, events + [Tick(wait)] + [Work(k)]);
            k < |s.tasks| && s.tasks[k].status == Completed
  {
    ExecKeepsInv(events);
    ExecOneMore(EMPTY, events, Tick(wait));
    ExecOneMore(EMPTY, events + [Tick(wait)], Work(k));
  }

  /** Some committed user has the name or the address. */
  predicate Exists(s: State, params: Params) {
    exists u | u in s.users ::
      s.users[u].params.username == params.username || s.users[u].params.email == params.email
  }

  lemma TakenMeansExists(s: State, params: Params)
    requires UsersWellFormed(s)
    ensures Taken(s, params) <==> Exists(s, params)
  {
    if params.username in s.users {
      assert s.users[params.username].params.username == params.username;
    }
  }

  /** The `createUser` of the HTTP API: when no open transaction holds one of its keys, it adds exactly
      its row if no committed user has the name or the address, and else nothing. */
  lemma DirectCreateAnswers(events: seq<Event>, params: Params)
    requires var s := Exec(EMPTY, events); forall q | 0 <= q < |s.requests| && Holding(s.requests[q]) ::
      s.requests[q].params.username != params.username && s.requests[q].params.email != params.email
    ensures var s := Exec(EMPTY, events);
            Apply(s, CreateDirectly(params))
            == if Exists(s, params) then s
               else s.(users := s.users[params.username := User(params, None, s.clock)])
  {
    ExecKeepsInv(events);
    TakenMeansExists(Exec(EMPTY, events), params);
    hide Exec;
    hide Taken;
    hide Exists;
  }

  /** The request was refused for a name or an address that exists. */
  predicate Refused(s: State, p: nat) {
    p < |s.requests| && s.requests[p].stage in {Rollback(true), Done(AlreadyExists)}
  }

  /** In the run, at some point, the request was about to insert and somebody had one of its keys. */
  predicate MetTheKey(events: seq<Event>, p: nat) {
    exists i | 0 <= i <= |events| :: MeetsKey(Exec(EMPTY, events[..i]), p)
  }

  predicate MeetsKey(s: State, p: nat) {
    p < |s.requests| && s.requests[p].stage.InsertUser? && Exists(s, s.requests[p].params)
  }

  lemma RefusedWhen(s: State, e: Event, p: nat)
    requires UsersWellFormed(s) && Refused(Apply(s, e), p)
    ensures Refused(s, p) || MeetsKey(s, p)
  {
    if p < |s.requests| {
      TakenMeansExists(s, s.requests[p].params);
    }
    hide Taken;
    hide Exists;
  }

  /** An answer AlreadyExists is never made up: in any run, when the row was to be inserted, a committed
      user had its name or its address. */
  lemma {:induction false} AlreadyExistsIsTrue(events: seq<Event>, p: nat)
    requires Refused(Exec(EMPTY, events), p)
    ensures MetTheKey(events, p)
  {
    if |events| == 0 {
    } else {
      var n := |events| - 1;
      ExecKeepsInv(events[..n]);
      RefusedWhen(Exec(EMPTY, events[..n]), events[n], p);
      hide Apply;
      hide Refused;
      hide MeetsKey;
      if Refused(Exec(EMPTY, events[..n]), p) {
        AlreadyExistsIsTrue(events[..n], p);
        var i :| 0 <= i <= n && MeetsKey(Exec(EMPTY, events[..n][..i]), p);
        assert events[..n][..i] == events[..i];
      }
    }
  }

  /** Whether a statement of `p` has failed for an outside reason in the run. */
  function HasFailed(events: seq<Event>, p: nat): bool {
    if |events| == 0 then false
    else
      var before := events[..|events| - 1];
      HasFailed(before, p) || (events[|events| - 1] == Fail(p) && Enabled(Exec(EMPTY, before), Fail(p)))
  }

  predicate OnErrorPath(s: State, p: nat) {
    p < |s.requests| && s.requests[p].stage in {Rollback(false), Done(InternalError)}
  }

  /** InternalError is answered exactly for an outside failure of one of the statements. */
  lemma {:induction false} InternalErrorIff(events: seq<Event>, p: nat)
    ensures OnErrorPath(Exec(EMPTY, events), p) <==> HasFailed(events, p)
  {
    if |events| == 0 {
    } else {
      InternalErrorIff(events[..|events| - 1], p);
    }
  }

  /* ---- The retry budget ---- */

  predicate IsAttempt(e: Event, k: nat) {
    e == Work(k) || e == WorkFail(k)
  }

  /** The task is there, and the request that enqueued it has committed. */
  predicate OriginCommitted(s: State, k: nat) {
    k < |s.tasks| && s.tasks[k].origin < |s.requests| && s.requests[s.tasks[k].origin].stage == Done(OK)
  }

  /** Attempts of the run on task `k` before its user was committed. */
  function AttemptsBeforeCommit(events: seq<Event>, k: nat): nat {
    if |events| == 0 then 0
    else
      var before := Exec(EMPTY, events[..|events| - 1]);
      AttemptsBeforeCommit(events[..|events| - 1], k)
      + (if IsDue(before, k) && IsAttempt(events[|events| - 1], k) && !OriginCommitted(before, k) then 1 else 0)
  }

  /** Attempts after the commit whose read failed for an outside reason. */
  function FailedReadsAfterCommit(events: seq<Event>, k: nat): nat {
    if |events| == 0 then 0
    else
      var before := Exec(EMPTY, events[..|events| - 1]);
      FailedReadsAfterCommit(events[..|events| - 1], k)
      + (if IsDue(before, k) && events[|events| - 1] == WorkFail(k) && OriginCommitted(before, k) then 1 else 0)
  }

  /** The request that enqueued it is at its commit, or has committed. */
  predicate OriginGood(s: State, k: nat) {
    && k < |s.tasks| && s.tasks[k].origin < |s.requests|
    && (s.requests[s.tasks[k].origin].stage.Commit? || s.requests[s.tasks[k].origin].stage == Done(OK))
  }

  /** No way leads back: what is good after an event was good before it, or did not exist. */
  lemma OriginWasGood(s: State, e: Event, k: nat)
    requires TaskOrigins(s) && k < |s.tasks| && OriginGood(Apply(s, e), k)
    ensures OriginGood(s, k) && (OriginCommitted(s, k) ==> OriginCommitted(Apply(s, e), k))
    ensures Apply(s, e).tasks[k].origin == s.tasks[k].origin && Apply(s, e).tasks[k].enqueuedAt == s.tasks[k].enqueuedAt
  {
  }

  /** One attempt: before the commit it fails, after it only when the read fails. */
  lemma OneAttempt(s: State, e: Event, k: nat)
    requires Inv(s) && OriginGood(s, k)
    ensures k < |Apply(s, e).tasks|
    ensures Apply(s, e).tasks[k].failures == s.tasks[k].failures
            + (if IsDue(s, k) && IsAttempt(e, k) && !OriginCommitted(s, k) then 1 else 0)
            + (if IsDue(s, k) && e == WorkFail(k) && OriginCommitted(s, k) then 1 else 0)
  {
    var origin := s.tasks[k].origin;
    if s.requests[origin].stage.Commit? {
      assert Holding(s.requests[origin]);
      assert !Taken(s, s.requests[origin].params);
    }
  }

  lemma {:induction false} FailuresAreCounted(events: seq<Event>, k: nat)
    ensures var s := Exec(EMPTY, events);
            if k >= |s.tasks| then AttemptsBeforeCommit(events, k) == 0 == FailedReadsAfterCommit(events, k)
            else OriginGood(s, k) ==>
              s.tasks[k].failures == AttemptsBeforeCommit(events, k) + FailedReadsAfterCommit(events, k)
  {
    if |events| == 0 {
    } else {
      var before, e := events[..|events| - 1], events[|events| - 1];
      FailuresAreCounted(before, k);
      var s := Exec(EMPTY, before);
      ExecKeepsInv(before);
      if k < |s.tasks| && OriginGood(Apply(s, e), k) {
        OriginWasGood(s, e, k);
        OneAttempt(s, e, k);
      }
    }
  }

  /** The task of a committed user is given up if and only if the attempts made before the commit and
      the reads that failed after it together use up the first attempt and its ten retries. */
  lemma TaskLostIff(events: seq<Event>, k: nat)
    requires OriginCommitted(Exec(EMPTY, events), k)
    ensures Exec(EMPTY, events).tasks[k].status.Archived?
            <==> AttemptsBeforeCommit(events, k) + FailedReadsAfterCommit(events, k) == 11
  {
    ExecKeepsInv(events);
    FailuresAreCounted(events, k);
    assert TaskSound(Exec(EMPTY, events), Exec(EMPTY, events).tasks[k]);
    hide Exec;
    hide KeysHeld;
    hide UsersWellFormed;
    hide CreatorsMatch;
    hide TasksMatch;
  }

  function CommittedAt(s: State, k: nat): nat
    requires OriginCommitted(s, k) && s.requests[s.tasks[k].origin].params.username in s.users
  {
    s.users[s.requests[s.tasks[k].origin].params.username].committedAt
  }

  /** A task is not attempted before it is due. */
  lemma {:induction false} EarlyMeansDelayed(events: seq<Event>, k: nat)
    requires AttemptsBeforeCommit(events, k) > 0
    ensures k < |Exec(EMPTY, events).tasks|
    ensures var s := Exec(EMPTY, events);
            && s.clock >= s.tasks[k].enqueuedAt + PROCESS_IN
            && (OriginCommitted(s, k) ==>
                  && s.requests[s.tasks[k].origin].params.username in s.users
                  && CommittedAt(s, k) >= s.tasks[k].enqueuedAt + PROCESS_IN)
  {
    if |events| == 0 {
    } else {
      var before, e := events[..|events| - 1], events[|events| - 1];
      var s := Exec(EMPTY, before);
      ExecKeepsInv(before);
      if AttemptsBeforeCommit(before, k) > 0 {
        EarlyMeansDelayed(before, k);
      }
      assert IsDue(s, k) ==> k < |s.tasks|;
      CommitTimeKept(s, e, k);
    }
  }

  /** A committed row stays as it is; a commit leaves its own time. */
  lemma CommittedRowKept(s: State, e: Event, username: string)
    requires KeysHeld(s)
    ensures username in s.users ==> username in Apply(s, e).users && Apply(s, e).users[username] == s.users[username]
  {
    if Enabled(s, e) && e.Step? && s.requests[e.pid].stage.Commit? {
      assert Holding(s.requests[e.pid]);
      assert !Taken(s, s.requests[e.pid].params);
    }
  }

  lemma CommitLeavesItsTime(s: State, e: Event, p: nat)
    requires p < |s.requests| && p < |Apply(s, e).requests|
    requires s.requests[p].stage != Done(OK) && Apply(s, e).requests[p].stage == Done(OK)
    ensures var username := s.requests[p].params.username;
            username in Apply(s, e).users && Apply(s, e).users[username].committedAt == s.clock
  {
  }

  lemma HistoryKept(s: State, e: Event, k: nat)
    requires k < |s.tasks|
    ensures k < |Apply(s, e).tasks| && Apply(s, e).clock >= s.clock
    ensures Apply(s, e).tasks[k].enqueuedAt == s.tasks[k].enqueuedAt && Apply(s, e).tasks[k].origin == s.tasks[k].origin
    ensures |Apply(s, e).requests| >= |s.requests|
    ensures forall p | 0 <= p < |s.requests| :: Apply(s, e).requests[p].params == s.requests[p].params
    ensures forall p | 0 <= p < |s.requests| && s.requests[p].stage.Done? ::
              Apply(s, e).requests[p].stage == s.requests[p].stage
  {
  }

  lemma CommitTimeKept(s: State, e: Event, k: nat)
    requires Inv(s) && k < |s.tasks|
    ensures k < |Apply(s, e).tasks| && Apply(s, e).clock >= s.clock
    ensures Apply(s, e).tasks[k].enqueuedAt == s.tasks[k].enqueuedAt
    ensures OriginCommitted(Apply(s, e), k) ==>
              && Apply(s, e).requests[Apply(s, e).tasks[k].origin].params.username in Apply(s, e).users
              && CommittedAt(Apply(s, e), k) == if OriginCommitted(s, k) then CommittedAt(s, k) else s.clock
    ensures OriginCommitted(s, k) ==> OriginCommitted(Apply(s, e), k)
  {
    HistoryKept(s, e, k);
    var p := s.tasks[k].origin;
    CommittedRowKept(s, e, s.requests[p].params.username);
    if s.requests[p].stage != Done(OK) && Apply(s, e).requests[p].stage == Done(OK) {
      CommitLeavesItsTime(s, e, p);
    }
    hide Apply;
    hide KeysHeld;
    hide UsersWellFormed;
    hide AttemptsMatch;
  }

  /** What the delay is for: when the commit takes effect within ten seconds of the enqueue, no attempt
      comes too early, and the task is given up if and only if eleven later reads fail. */
  lemma PromptCommitLosesNothing(events: seq<Event>, k: nat)
    requires OriginCommitted(Exec(EMPTY, events), k)
    ensures var s := Exec(EMPTY, events);
            && s.requests[s.tasks[k].origin].params.username in s.users
            && (CommittedAt(s, k) < s.tasks[k].enqueuedAt + 10 ==>
                  && AttemptsBeforeCommit(events, k) == 0
                  && (s.tasks[k].status.Archived? <==> FailedReadsAfterCommit(events, k) == 11))
  {
    ExecKeepsInv(events);
    TaskLostIff(events, k);
    if AttemptsBeforeCommit(events, k) > 0 {
      EarlyMeansDelayed(events, k);
    }
    hide Exec;
  }

  /* ---- A run that loses a task ---- */

  /** One attempt after each of the waits. */
  function Attempts(waits: seq<nat>): seq<Event> {
    if |waits| == 0 then [] else Attempts(waits[..|waits| - 1]) + [Tick(waits[|waits| - 1])] + [Work(0)]
  }

  function Sum(waits: seq<nat>): nat {
    if |waits| == 0 then 0 else Sum(waits[..|waits| - 1]) + waits[|waits| - 1]
  }

  /** The only task, after `n` failed attempts and `elapsed` seconds. */
  function AfterFailures(s: State, n: nat, elapsed: nat): State
    requires |s.tasks| == 1
  {
    s.(tasks := [s.tasks[0].(failures := n, status := if n <= MAX_RETRY then Queued else Archived)],
       clock := s.clock + elapsed)
  }

  lemma OneFailure(s: State, n: nat, elapsed: nat, wait: nat)
    requires |s.tasks| == 1 && s.tasks[0].username !in s.users && n <= MAX_RETRY
    requires s.clock >= s.tasks[0].enqueuedAt + PROCESS_IN
    ensures Apply(Apply(AfterFailures(s, n, elapsed), Tick(wait)), Work(0)) == AfterFailures(s, n + 1, elapsed + wait)
  {
  }

  lemma {:induction false} RepeatedFailures(s: State, waits: seq<nat>)
    requires |s.tasks| == 1 && s.tasks[0].status.Queued? && s.tasks[0].failures == 0
    requires s.tasks[0].username !in s.users && |waits| <= MAX_RETRY + 1
    requires s.clock >= s.tasks[0].enqueuedAt + PROCESS_IN
    ensures Exec(s, Attempts(waits)) == AfterFailures(s, |waits|, Sum(waits))
  {
    hide Apply;
    if |waits| == 0 {
      assert s.tasks == [s.tasks[0]];
    } else {
      var n := |waits| - 1;
      assert Attempts(waits) == Attempts(waits[..n]) + [Tick(waits[n])] + [Work(0)];
      assert Sum(waits) == Sum(waits[..n]) + waits[n];
      hide AfterFailures;
      hide Attempts;
      hide Sum;
      RepeatedFailures(s, waits[..n]);
      ExecOneMore(s, Attempts(waits[..n]), Tick(waits[n]));
      ExecOneMore(s, Attempts(waits[..n]) + [Tick(waits[n])], Work(0));
      OneFailure(s, n, Sum(waits[..n]), waits[n]);
      hide Exec;
    }
  }

  lemma {:induction false} ExecAppend(s: State, es: seq<Event>, fs: seq<Event>)
    ensures Exec(s, es + fs) == Exec(Exec(s, es), fs)
  {
    if |fs| == 0 {
      assert es + fs == es;
    } else {
      ExecAppend(s, es, fs[..|fs| - 1]);
      assert (es + fs)[..|es + fs| - 1] == es + fs[..|fs| - 1];
    }
  }

  /** The commit is due, and stalls for the ten seconds. */
  function StallEvents(params: Params): seq<Event> {
    [Begin(params), Step(0), Step(0)] + [Tick(PROCESS_IN)]
  }

  lemma StalledCommit(params: Params)
    ensures Exec(EMPTY, StallEvents(params)) ==
            State(map[], [Request(params, Commit)], [Task(params.username, 0, 0, Queued, 0)], PROCESS_IN)
  {
    ExecOneMore(EMPTY, [], Begin(params));
    ExecOneMore(EMPTY, [Begin(params)], Step(0));
    ExecOneMore(EMPTY, [Begin(params), Step(0)], Step(0));
    ExecOneMore(EMPTY, [Begin(params), Step(0), Step(0)], Tick(PROCESS_IN));
    assert [] + [Begin(params)] == [Begin(params)];
    assert [Begin(params)] + [Step(0)] == [Begin(params), Step(0)];
    assert [Begin(params), Step(0)] + [Step(0)] == [Begin(params), Step(0), Step(0)];
  }

  /** The delay is no guarantee: however long the worker waits before each of its attempts, behind a
      commit that stalls past them all the user is created and the mail is never sent. */
  lemma TaskCanBeLost(params: Params, waits: seq<nat>)
    requires |waits| == 11
    ensures var s := Exec(EMPTY, StallEvents(params) + Attempts(waits) + [Step(0)]);
            && params.username in s.users
            && s.users[params.username] == User(params, Some(0), 10 + Sum(waits))
            && |s.tasks| == 1 && s.tasks[0] == Task(params.username, 0, 0, Archived, 11)
  {
    StalledCommit(params);
    var s := Exec(EMPTY, StallEvents(params));
    RepeatedFailures(s, waits);
    ExecAppend(EMPTY, StallEvents(params), Attempts(waits));
    ExecOneMore(EMPTY, StallEvents(params) + Attempts(waits), Step(0));
    hide Exec;
    hide Attempts;
    hide Sum;
    hide StallEvents;
  }
}
