/** `CreateUserTx` with its callback, and the worker, as programs over a mutable store and queue that
    others use between any two statements; proved to be the step system of `Signup`. */
module UserStores {
  import opened Wrappers
  import opened Scheduling
  import opened Signup

  predicate By(e: Event, p: nat) {
    (e.Step? || e.Fail?) && e.pid == p
  }

  predicate ForeignEvents(events: seq<Event>, p: nat) {
    forall i | 0 <= i < |events| :: !By(events[i], p)
  }

  predicate Foreign(schedule: seq<Turn<Event>>, p: nat) {
    forall i | 0 <= i < |schedule| :: ForeignEvents(schedule[i].others, p)
  }

  function TurnEvent(s: State, p: nat, fault: bool): Event {
    if fault || !Enabled(s, Step(p)) then Fail(p) else Step(p)
  }

  function After(s: State, p: nat, turn: Turn<Event>): State {
    var t := Exec(s, turn.others);
    Apply(t, TurnEvent(t, p, turn.fault))
  }

  function Drive(s: State, p: nat, schedule: seq<Turn<Event>>): State
    decreases |schedule|
  {
    if schedule == [] || !Unfinished(s, p) then s
    else Drive(After(s, p, schedule[0]), p, schedule[1..])
  }

  function DriveEvents(s: State, p: nat, schedule: seq<Turn<Event>>): seq<Event>
    decreases |schedule|
  {
    if schedule == [] || !Unfinished(s, p) then []
    else
      var turn := schedule[0];
      var t := Exec(s, turn.others);
      turn.others + [TurnEvent(t, p, turn.fault)] + DriveEvents(After(s, p, turn), p, schedule[1..])
  }

  /** Driving a create request is one of the interleavings. */
  lemma {:induction false} DriveIsRun(s: State, p: nat, schedule: seq<Turn<Event>>)
    ensures Drive(s, p, schedule) == Exec(s, DriveEvents(s, p, schedule))
    decreases |schedule|
  {
    if schedule == [] || !Unfinished(s, p) {
    } else {
      var turn := schedule[0];
      var t := Exec(s, turn.others);
      var first := turn.others + [TurnEvent(t, p, turn.fault)];
      assert first[..|first| - 1] == turn.others;
      DriveIsRun(After(s, p, turn), p, schedule[1..]);
      ExecAppend(s, first, DriveEvents(After(s, p, turn), p, schedule[1..]));
    }
  }

  lemma {:induction false} OthersKeepRequest(s: State, events: seq<Event>, p: nat)
    requires p < |s.requests| && ForeignEvents(events, p)
    ensures p < |Exec(s, events).requests| && Exec(s, events).requests[p] == s.requests[p]
  {
    if |events| == 0 {
    } else {
      OthersKeepRequest(s, events[..|events| - 1], p);
    }
  }

  /** A world in which nothing else happens and nothing fails. */
  function Quiet(n: nat): seq<Turn<Event>> {
    seq(n, i => Turn([], false))
  }

  lemma QuietTurn(s: State, p: nat, n: nat)
    requires Enabled(s, Step(p)) && n > 0
    ensures Drive(s, p, Quiet(n)) == Drive(ExecStep(s, p), p, Quiet(n - 1))
  {
    assert Quiet(n)[1..] == Quiet(n - 1);
    assert After(s, p, Quiet(n)[0]) == Apply(s, Step(p));
  }

  lemma NothingLeft(s: State, p: nat, schedule: seq<Turn<Event>>)
    requires !Unfinished(s, p)
    ensures Drive(s, p, schedule) == s
  {
  }

  /** A create request driven alone on a state in which others may be open, but hold none of its keys. */
  function Alone(s: State, params: Params): State {
    Drive(Apply(s, Begin(params)), |s.requests|, Quiet(3))
  }

  predicate KeysAreFree(s: State, params: Params) {
    forall q | 0 <= q < |s.requests| && Holding(s.requests[q]) ::
      s.requests[q].params.username != params.username && s.requests[q].params.email != params.email
  }

  /** The name is a key of the table, or some row has the address. */
  predicate IsTaken(users: map<string, User>, params: Params) {
    exists u | u in users :: u == params.username || users[u].params.email == params.email
  }

  lemma InsertAlone(s: State, params: Params)
    requires UsersWellFormed(s) && KeysAreFree(s, params)
    ensures var p := |s.requests|;
            var s1 := Apply(s, Begin(params));
            && Enabled(s1, Step(p))
            && ExecStep(s1, p) == Goto(s1, p, if Exists(s, params) then Rollback(true) else AfterCreate)
  {
    TakenMeansExists(s, params);
    hide Exists;
  }

  /** From the callback on. */
  lemma AcceptedAlone(s: State, p: nat)
    requires p < |s.requests| && s.requests[p].stage == AfterCreate
    ensures var params := s.requests[p].params;
            Drive(s, p, Quiet(2))
            == Goto(s.(tasks := s.tasks + [Task(params.username, p, s.clock, Queued, 0)],
                       users := s.users[params.username := User(params, Some(p), s.clock)]), p, Done(OK))
  {
    QuietTurn(s, p, 2);
    var s1 := ExecStep(s, p);
    QuietTurn(s1, p, 1);
    NothingLeft(ExecStep(s1, p), p, Quiet(0));
    hide Drive;
  }

  lemma RefusedAlone(s: State, p: nat)
    requires p < |s.requests| && s.requests[p].stage == Rollback(true)
    ensures Drive(s, p, Quiet(2)) == Goto(s, p, Done(AlreadyExists))
  {
    QuietTurn(s, p, 2);
    NothingLeft(ExecStep(s, p), p, Quiet(1));
    hide Drive;
  }

  /** After any run, a sign-up that nobody disturbs is answered OK if and only if no committed user has
      its name or its address; it has then added exactly its row and one task. Otherwise it is answered
      AlreadyExists, and neither users nor tasks have changed. */
  lemma CreateUserAlone(events: seq<Event>, params: Params)
    requires KeysAreFree(Exec(EMPTY, events), params)
    ensures var s := Exec(EMPTY, events);
            var s' := Alone(s, params);
            var p := |s.requests|;
            && |s'.requests| == p + 1
            && s'.requests == s.requests + [Request(params, Done(if Exists(s, params) then AlreadyExists else OK))]
            && (if Exists(s, params) then s'.users == s.users && s'.tasks == s.tasks
                else
                  && s'.users == s.users[params.username := User(params, Some(p), s.clock)]
                  && s'.tasks == s.tasks + [Task(params.username, p, s.clock, Queued, 0)])
  {
    var s := Exec(EMPTY, events);
    var p := |s.requests|;
    ExecKeepsInv(events);
    InsertAlone(s, params);
    hide Exec;
    hide KeysAreFree;
    hide Exists;
    hide KeysHeld;
    hide UsersWellFormed;
    hide CreatorsMatch;
    hide TasksMatch;
    hide AttemptsMatch;
    var s1 := Apply(s, Begin(params));
    QuietTurn(s1, p, 3);
    if Exists(s, params) {
      RefusedAlone(ExecStep(s1, p), p);
    } else {
      AcceptedAlone(ExecStep(s1, p), p);
    }
    hide Drive;
    hide Quiet;
    hide ExecStep;
  }

  class UserStore {
    var users: map<string, User>
    var requests: seq<Request>
    var tasks: seq<Task>
    var clock: nat
    var schedule: seq<Turn<Event>>

    function Model(): State
      reads this
    {
      State(users, requests, tasks, clock)
    }

    ghost predicate At(p: nat, stage: Stage, turns: nat)
      reads this
    {
      p < |requests| && requests[p].stage == stage && Foreign(schedule, p) && |schedule| >= turns
    }

    method TakeTurn(p: nat) returns (fault: bool)
      requires p < |requests| && schedule != [] && Foreign(schedule, p)
      modifies this
      ensures Model() == Exec(old(Model()), old(schedule[0].others))
      ensures fault == old(schedule[0].fault) && schedule == old(schedule[1..]) && Foreign(schedule, p)
      ensures p < |requests| && requests[p] == old(requests[p])
    {
      var turn := schedule[0];
      OthersKeepRequest(Model(), turn.others, p);
      var t := Exec(Model(), turn.others);
      users, requests, tasks, clock := t.users, t.requests, t.tasks, t.clock;
      schedule := schedule[1..];
      fault := turn.fault;
    }

    method GotoStage(p: nat, stage: Stage)
      requires p < |requests|
      modifies `requests
      ensures requests == old(requests)[p := old(requests[p]).(stage := stage)]
    {
      requests := requests[p := requests[p].(stage := stage)];
    }

    /** `CreateUser` inside the transaction. */
    method InsertUserRow(p: nat) returns (err: bool)
      requires At(p, InsertUser, 3)
      modifies this
      ensures Model() == After(old(Model()), p, old(schedule[0])) && schedule == old(schedule[1..])
      ensures Foreign(schedule, p) && p < |requests|
      ensures if err then requests[p].stage.Rollback? else requests[p].stage == AfterCreate
      ensures var before := Exec(old(Model()), old(schedule[0].others));
              var params := old(requests[p].params);
              var waits := !KeysAreFree(before, params);
              && (err <==> old(schedule[0].fault) || waits || IsTaken(before.users, params))
              && (err ==> requests[p].stage == Rollback(!old(schedule[0].fault) && !waits))
    {
      var fault := TakeTurn(p);
      var params := requests[p].params;
      if fault || MustWait(Model(), params) {
        GotoStage(p, Rollback(false));
        return true;
      }
      if params.username in users || exists u | u in users :: users[u].params.email == params.email {
        GotoStage(p, Rollback(true));
        return true;
      }
      GotoStage(p, AfterCreate);
      return false;
    }

    /** The `AfterCreate` callback: `DistributeTaskSendVerifyEmail`, before the commit. */
    method EnqueueVerifyEmail(p: nat) returns (err: bool)
      requires At(p, AfterCreate, 2)
      modifies this
      ensures Model() == After(old(Model()), p, old(schedule[0])) && schedule == old(schedule[1..])
      ensures At(p, if err then Rollback(false) else Commit, 1)
      ensures requests[p].params == old(requests[p].params)
    {
      var fault := TakeTurn(p);
      if fault {
        GotoStage(p, Rollback(false));
        return true;
      }
      tasks := tasks + [Task(requests[p].params.username, p, clock, Queued, 0)];
      GotoStage(p, Commit);
      return false;
    }

    method CommitTx(p: nat) returns (err: bool)
      requires At(p, Commit, 1)
      modifies this
      ensures Model() == After(old(Model()), p, old(schedule[0])) && schedule == old(schedule[1..])
      ensures At(p, Done(if err then InternalError else OK), 0)
    {
      var fault := TakeTurn(p);
      if fault {
        GotoStage(p, Done(InternalError));
        return true;
      }
      users := users[requests[p].params.username := User(requests[p].params, Some(p), clock)];
      GotoStage(p, Done(OK));
      return false;
    }

    method RollbackTx(p: nat)
      requires p < |requests| && requests[p].stage.Rollback? && Foreign(schedule, p) && schedule != []
      modifies this
      ensures Model() == After(old(Model()), p, old(schedule[0])) && schedule == old(schedule[1..])
      ensures p < |requests| && requests[p].stage.Done? && requests[p].stage != Done(OK)
    {
      var fault := TakeTurn(p);
      var clash := requests[p].stage.clash;
      GotoStage(p, Done(if clash && !fault then AlreadyExists else InternalError));
    }

    /** `CreateUserTx`: insert, callback, commit, in one transaction. */
    method CreateUserTx(params: Params) returns (status: Status)
      requires Foreign(schedule, |requests|) && |schedule| >= 3
      modifies this
      ensures Model() == Drive(Apply(old(Model()), Begin(params)), |old(requests)|, old(schedule))
      ensures |old(requests)| < |requests| && requests[|old(requests)|].stage == Done(status)
    {
      hide After;
      var p := |requests|;
      requests := requests + [Request(params, InsertUser)];
      ghost var end := Drive(Model(), p, schedule);
      var err := InsertUserRow(p);
      assert Drive(Model(), p, schedule) == end;
      if !err {
        err := EnqueueVerifyEmail(p);
        assert Drive(Model(), p, schedule) == end;
      }
      if err {
        RollbackTx(p);
      } else {
        err := CommitTx(p);
      }
      assert Drive(Model(), p, schedule) == end;
      status := requests[p].stage.status;
    }

    /** `ProcessTaskSendVerifyEmail` on one task that is due: it reads committed users only. */
    method ProcessTask(k: nat, fault: bool) returns (err: bool)
      requires IsDue(Model(), k)
      modifies `tasks
      ensures Model() == Apply(old(Model()), if fault then WorkFail(k) else Work(k))
      ensures |tasks| == |old(tasks)| && tasks[k].username == old(tasks)[k].username
      ensures err <==> fault || tasks[k].username !in users
      ensures err ==> tasks[k].failures == old(tasks)[k].failures + 1
      ensures err ==> (tasks[k].status == Queued <==> old(tasks)[k].failures < 10)
      ensures err ==> (tasks[k].status == Archived <==> old(tasks)[k].failures >= 10)
      ensures !err <==> tasks[k].status.Completed?
    {
      var task := tasks[k];
      if fault || task.username !in users {
        var retry := task.failures < MAX_RETRY;
        tasks := tasks[k := task.(failures := task.failures + 1, status := if retry then Queued else Archived)];
        return true;
      }
      tasks := tasks[k := task.(status := Completed)];
      return false;
    }
  }
}
