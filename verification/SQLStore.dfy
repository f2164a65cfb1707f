/** The program text of `createTransfer`, `TransferTx` and `addMoney` over a mutable database that
    other sessions use between any two statements, proved to be the step system of `Transfers`. */
module SQLStores {
  import opened Wrappers
  import opened Scheduling
  import opened Ledger
  import opened Transfers
  import opened Serializability
  import opened RollbackIsolation
  import Progress

  function TurnEvent(s: State, p: nat, fault: bool): Event {
    if fault || Blocked(s, p) then Fail(p) else Step(p)
  }

  function After(s: State, p: nat, turn: Turn<Event>): State {
    var t := Exec(s, turn.others);
    Apply(t, TurnEvent(t, p, turn.fault))
  }

  /** The step system driven through one request from where it stands until it is answered. */
  function Drive(s: State, p: nat, schedule: seq<Turn<Event>>): State
    decreases |schedule|
  {
    if schedule == [] || !Unfinished(s, p) then s
    else Drive(After(s, p, schedule[0]), p, schedule[1..])
  }

  predicate Foreign(schedule: seq<Turn<Event>>, p: nat) {
    forall i | 0 <= i < |schedule| :: ForeignEvents(schedule[i].others, p)
  }

  predicate ForeignEvents(events: seq<Event>, p: nat) {
    forall i | 0 <= i < |events| :: !By(events[i], p)
  }

  lemma ForeignMove(s: State, e: Event, p: nat)
    requires p < |s.requests| && !By(e, p)
    ensures p < |Apply(s, e).requests| && Apply(s, e).requests[p] == s.requests[p]
  {
    if (e.Step? || e.Fail?) && Enabled(s, e) {
      PrivateMove(s, e.pid);
      hide ExecStep;
      hide ExecFail;
    }
  }

  /** Nobody else moves a request's program counter or touches its private writes. */
  lemma {:induction false} OthersKeepRequest(s: State, events: seq<Event>, p: nat)
    requires p < |s.requests| && ForeignEvents(events, p)
    ensures p < |Exec(s, events).requests| && Exec(s, events).requests[p] == s.requests[p]
  {
    if |events| == 0 {
    } else {
      OthersKeepRequest(s, events[..|events| - 1], p);
      ForeignMove(Exec(s, events[..|events| - 1]), events[|events| - 1], p);
    }
  }

  /** The events that driving a request amounts to. */
  function DriveEvents(s: State, p: nat, schedule: seq<Turn<Event>>): seq<Event>
    decreases |schedule|
  {
    if schedule == [] || !Unfinished(s, p) then []
    else
      var turn := schedule[0];
      var t := Exec(s, turn.others);
      turn.others + [TurnEvent(t, p, turn.fault)] + DriveEvents(After(s, p, turn), p, schedule[1..])
  }

  /** Driving a request is one of the interleavings. */
  lemma {:induction false} DriveIsRun(s: State, p: nat, schedule: seq<Turn<Event>>)
    ensures Drive(s, p, schedule) == Exec(s, DriveEvents(s, p, schedule))
    decreases |schedule|
  {
    if schedule == [] || !Unfinished(s, p) {
    } else {
      var turn := schedule[0];
      var t := Exec(s, turn.others);
      var first := turn.others + [TurnEvent(t, p, turn.fault)];
      assert first[..|first| - 1] == turn.others;
      DriveIsRun(After(s, p, turn), p, schedule[1..]);
      ExecAppend(s, first, DriveEvents(After(s, p, turn), p, schedule[1..]));
    }
  }

  lemma CommitTurn(t: State, p: nat, fault: bool)
    requires Unfinished(t, p) && t.requests[p].stage.Commit?
    ensures Apply(t, TurnEvent(t, p, fault)) == if fault || t.requests[p].aborted then Discard(t, p) else Install(t, p)
  {
  }

  /** So everything proved of runs holds of the handler: whatever happened before it was called, its
      arrival and its statements continue that history by one more run. */
  lemma HandlerContinuesRun(s0: State, history: seq<Event>, user: string, req: TransferRequest,
                            schedule: seq<Turn<Event>>)
    ensures var s := Exec(s0, history);
            var p := |s.requests|;
            var arrived := ExecArrive(s, user, req);
            Drive(arrived, p, schedule)
            == Exec(s0, history + [Arrive(user, req)] + DriveEvents(arrived, p, schedule))
  {
    var next := history + [Arrive(user, req)];
    assert next[..|next| - 1] == history;
    var arrived := ExecArrive(Exec(s0, history), user, req);
    var p := |Exec(s0, history).requests|;
    DriveIsRun(arrived, p, schedule);
    ExecAppend(s0, next, DriveEvents(arrived, p, schedule));
  }

  /** A turn spent on a balance update, in terms of what the update answers. */
  lemma UpdateTurn(t: State, p: nat, fault: bool)
    requires Unfinished(t, p) && Updating(t.requests[p])
    ensures var r := t.requests[p];
            var u := Pending(r);
            var answer := AddBalance(t.tables.accounts, r.writes.rows, u.id, u.delta);
            Apply(t, TurnEvent(t, p, fault)) ==
            if fault || (u.id in t.locks && t.locks[u.id] != p) || answer.Failed? then Abort(t, p, Commit)
            else if answer.NoRows? then Goto(t, p, Commit)
            else Put(t.(locks := t.locks[u.id := p]), p,
                     r.(stage := if r.stage.FirstUpdate? then SecondUpdate else Commit,
                        writes := r.writes.(rows := r.writes.rows[u.id := answer.row]),
                        result := Fill(r.result, u, answer.row)))
  {
  }

  datatype Error = Nil | ErrNoRows | ErrStatement

  class SQLStore {
    var accounts: map<int, Account>
    var transfers: seq<Transfer>
    var entries: seq<Entry>
    var users: set<string>
    var nextAccount: nat
    var nextTransfer: nat
    var nextEntry: nat
    var locks: map<int, nat>
    var requests: seq<Request>     // the sessions: private writes, failure mark, program counter
    var log: seq<Change>           // history of committed changes
    var schedule: seq<Turn<Event>>        // what the world is going to do

    function Model(): State
      reads this
    {
      State(Tables(accounts, transfers, entries), users, nextAccount, nextTransfer, nextEntry, locks, requests, log)
    }

    method Load(s: State)
      modifies this
      ensures Model() == s && schedule == old(schedule)
    {
      accounts, transfers, entries := s.tables.accounts, s.tables.transfers, s.tables.entries;
      users, nextAccount, nextTransfer, nextEntry := s.users, s.nextAccount, s.nextTransfer, s.nextEntry;
      locks, requests, log := s.locks, s.requests, s.log;
    }

    /** Other sessions run; then the statement of `p` is due. */
    method TakeTurn(p: nat) returns (fault: bool)
      requires p < |requests| && schedule != [] && Foreign(schedule, p)
      modifies this
      ensures Model() == Exec(old(Model()), old(schedule[0].others))
      ensures fault == old(schedule[0].fault) && schedule == old(schedule[1..]) && Foreign(schedule, p)
      ensures p < |requests| && requests[p] == old(requests[p])
    {
      var turn := schedule[0];
      OthersKeepRequest(Model(), turn.others, p);
      hide Apply;
      Load(Exec(Model(), turn.others));
      schedule := schedule[1..];
      fault := turn.fault;
    }

    /** A request stands at `stage`, with enough future left to finish. */
    ghost predicate At(p: nat, stage: Stage)
      reads this
    {
      && p < |requests| && requests[p].stage == stage
      && Foreign(schedule, p) && |schedule| >= Progress.StatementsLeft(stage)
    }

    /* ---- Queries ---- */

    /** GetAccount reads committed rows only. */
    method GetAccount(id: int, fault: bool) returns (account: Option<Account>, err: Error)
      ensures fault ==> err == ErrStatement
      ensures !fault ==> (err == Nil <==> id in accounts) && (err == ErrNoRows <==> id !in accounts)
      ensures err == Nil ==> account == Some(accounts[id])
    {
      if fault {
        return None, ErrStatement;
      } else if id !in accounts {
        return None, ErrNoRows;
      }
      return Some(accounts[id]), Nil;
    }

    method MarkFailed(p: nat)
      requires p < |requests|
      modifies `requests
      ensures requests == old(requests)[p := old(requests[p]).(aborted := true)]
    {
      requests := requests[p := requests[p].(aborted := true)];
    }

    /** INSERT INTO transfers. Both foreign keys are checked; the id is drawn in any case unless
        the statement never got that far. */
    method CreateTransfer(p: nat, fromId: int, toId: int, amount: int, fault: bool)
      returns (row: Option<Transfer>, err: Error)
      requires p < |requests|
      modifies `nextTransfer, `requests
      ensures err == Nil <==> !fault && fromId in accounts && toId in accounts
      ensures nextTransfer == old(nextTransfer) + (if fault then 0 else 1)
      ensures err == Nil ==> row == Some(Transfer(old(nextTransfer), fromId, toId, amount))
      ensures err == Nil ==> requests == old(requests)[p := old(requests[p]).(writes :=
                old(requests[p].writes).(transfers := old(requests[p].writes.transfers) + [row.value]))]
      ensures err != Nil ==> requests == old(requests)[p := old(requests[p]).(aborted := true)]
    {
      row := None;
      if fault {
        MarkFailed(p);
        return None, ErrStatement;
      }
      var id := nextTransfer;
      nextTransfer := nextTransfer + 1;
      if fromId !in accounts || toId !in accounts {
        MarkFailed(p);
        return None, ErrStatement;
      }
      row := Some(Transfer(id, fromId, toId, amount));
      var w := requests[p].writes;
      requests := requests[p := requests[p].(writes := w.(transfers := w.transfers + [row.value]))];
      err := Nil;
    }

    method CreateEntry(p: nat, accountId: int, amount: int, fault: bool) returns (row: Option<Entry>, err: Error)
      requires p < |requests|
      modifies `nextEntry, `requests
      ensures err == Nil <==> !fault && accountId in accounts
      ensures nextEntry == old(nextEntry) + (if fault then 0 else 1)
      ensures err == Nil ==> row == Some(Entry(old(nextEntry), accountId, amount))
      ensures err == Nil ==> requests == old(requests)[p := old(requests[p]).(writes :=
                old(requests[p].writes).(entries := old(requests[p].writes.entries) + [row.value]))]
      ensures err != Nil ==> requests == old(requests)[p := old(requests[p]).(aborted := true)]
    {
      row := None;
      if fault {
        MarkFailed(p);
        return None, ErrStatement;
      }
      var id := nextEntry;
      nextEntry := nextEntry + 1;
      if accountId !in accounts {
        MarkFailed(p);
        return None, ErrStatement;
      }
      row := Some(Entry(id, accountId, amount));
      var w := requests[p].writes;
      requests := requests[p := requests[p].(writes := w.(entries := w.entries + [row.value]))];
      err := Nil;
    }

    /** UPDATE accounts ... RETURNING, under the row lock: on the own version of the row if there is
        one, else on the newest committed version. No matching row is not a failed statement. */
    method AddAccountBalance(p: nat, id: int, amount: int, fault: bool) returns (row: Option<Account>, err: Error)
      requires p < |requests|
      modifies `locks, `requests
      ensures var answer := AddBalance(accounts, old(requests[p].writes.rows), id, amount);
              if fault || (id in old(locks) && old(locks)[id] != p) || answer.Failed? then
                && err == ErrStatement && locks == old(locks)
                && requests == old(requests)[p := old(requests[p]).(aborted := true)]
              else if answer.NoRows? then
                err == ErrNoRows && locks == old(locks) && requests == old(requests)
              else
                && err == Nil && row == Some(answer.row) && locks == old(locks)[id := p]
                && requests == old(requests)[p := old(requests[p]).(writes :=
                     old(requests[p].writes).(rows := old(requests[p].writes.rows)[id := answer.row]))]
    {
      row := None;
      if fault || (id in locks && locks[id] != p) {
        MarkFailed(p);
        return None, ErrStatement;
      }
      var w := requests[p].writes;
      if id !in w.rows && id !in accounts {
        return None, ErrNoRows;
      }
      var current := if id in w.rows then w.rows[id] else accounts[id];
      if !IsInt64(current.balance + amount) {
        MarkFailed(p);
        return None, ErrStatement;
      }
      row := Some(current.(balance := current.balance + amount));
      locks := locks[id := p];
      requests := requests[p := requests[p].(writes := w.(rows := w.rows[id := row.value]))];
      err := Nil;
    }

    /* ---- execTX ---- */

    method GotoStage(p: nat, stage: Stage)
      requires p < |requests|
      modifies `requests
      ensures requests == old(requests)[p := old(requests[p]).(stage := stage)]
    {
      requests := requests[p := requests[p].(stage := stage)];
    }

    method Begin(p: nat) returns (err: Error)
      requires At(p, BeginTx)
      modifies this
      ensures Model() == After(old(Model()), p, old(schedule[0])) && schedule == old(schedule[1..])
      ensures if err == Nil then At(p, InsertTransfer) else At(p, Done(InternalError))
    {
      var fault := TakeTurn(p);
      if fault {
        GotoStage(p, Done(InternalError));
        return ErrStatement;
      }
      GotoStage(p, InsertTransfer);
      err := Nil;
    }

    method RollbackTx(p: nat)
      requires At(p, Rollback)
      modifies this
      ensures Model() == After(old(Model()), p, old(schedule[0])) && schedule == old(schedule[1..])
      ensures At(p, Done(InternalError))
    {
      var fault := TakeTurn(p);
      locks := Release(locks, p);
      requests := requests[p := requests[p].(stage := Done(InternalError), writes := NO_WRITES)];
    }

    /** The database's side of COMMIT: a transaction with a failed statement is rolled back. */
    method CommitOrDiscard(p: nat, fault: bool) returns (err: Error)
      requires p < |requests| && requests[p].stage.Commit?
      modifies `accounts, `transfers, `entries, `locks, `log, `requests
      ensures Model() == if fault || old(requests[p].aborted) then Discard(old(Model()), p)
                         else Install(old(Model()), p)
      ensures err == Nil <==> !fault && !old(requests[p].aborted)
    {
      var r := requests[p];
      locks := Release(locks, p);
      if fault || r.aborted {
        requests := requests[p := r.(stage := Done(InternalError), writes := NO_WRITES)];
        return ErrStatement;
      }
      accounts := accounts + r.writes.rows;
      transfers := transfers + r.writes.transfers;
      entries := entries + r.writes.entries;
      log := log + [Moved(p, r.req, IdsOf(r.result))];
      requests := requests[p := r.(stage := Done(OK), writes := NO_WRITES)];
      err := Nil;
    }

    /** Committing a transaction with a failed statement reports an error. */
    method CommitTx(p: nat) returns (err: Error)
      requires At(p, Commit)
      modifies this
      ensures Model() == After(old(Model()), p, old(schedule[0])) && schedule == old(schedule[1..])
      ensures if err == Nil then At(p, Done(OK)) else At(p, Done(InternalError))
    {
      var fault := TakeTurn(p);
      CommitTurn(Model(), p, fault);
      hide Apply;
      err := CommitOrDiscard(p, fault);
    }

    /* ---- TransferTx ---- */

    /** Assign a field of the captured `result` and go on. */
    method Advance(p: nat, result: TxResult, stage: Stage)
      requires p < |requests|
      modifies `requests
      ensures requests == old(requests)[p := old(requests[p]).(result := result, stage := stage)]
    {
      requests := requests[p := requests[p].(result := result, stage := stage)];
    }

    method InsertTransferRow(p: nat) returns (err: Error)
      requires At(p, InsertTransfer)
      modifies this
      ensures Model() == After(old(Model()), p, old(schedule[0])) && schedule == old(schedule[1..])
      ensures if err == Nil then At(p, InsertFromEntry) else At(p, Rollback)
      ensures requests[p].req == old(requests[p].req)
    {
      hide Apply;
      var fault := TakeTurn(p);
      err := InsertTransferRowNow(p, fault);
    }

    method InsertTransferRowNow(p: nat, fault: bool) returns (err: Error)
      requires p < |requests| && requests[p].stage == InsertTransfer
      modifies `nextTransfer, `requests
      ensures Model() == Apply(old(Model()), TurnEvent(old(Model()), p, fault))
      ensures |requests| == |old(requests)| && requests[p].req == old(requests[p].req)
      ensures requests[p].stage == if err == Nil then InsertFromEntry else Rollback
    {
      var arg := requests[p].req;
      var row;
      row, err := CreateTransfer(p, arg.fromId, arg.toId, arg.amount, fault);
      if err != Nil {
        GotoStage(p, Rollback);
      } else {
        Advance(p, requests[p].result.(transfer := row), InsertFromEntry);
      }
    }

    method InsertFromEntryRow(p: nat) returns (err: Error)
      requires At(p, InsertFromEntry)
      modifies this
      ensures Model() == After(old(Model()), p, old(schedule[0])) && schedule == old(schedule[1..])
      ensures if err == Nil then At(p, InsertToEntry) else At(p, Rollback)
      ensures requests[p].req == old(requests[p].req)
    {
      hide Apply;
      var fault := TakeTurn(p);
      err := InsertFromEntryRowNow(p, fault);
    }

    method InsertFromEntryRowNow(p: nat, fault: bool) returns (err: Error)
      requires p < |requests| && requests[p].stage == InsertFromEntry
      modifies `nextEntry, `requests
      ensures Model() == Apply(old(Model()), TurnEvent(old(Model()), p, fault))
      ensures |requests| == |old(requests)| && requests[p].req == old(requests[p].req)
      ensures requests[p].stage == if err == Nil then InsertToEntry else Rollback
    {
      var arg := requests[p].req;
      var row;
      row, err := CreateEntry(p, arg.fromId, Negate(arg.amount), fault);
      if err != Nil {
        GotoStage(p, Rollback);
      } else {
        Advance(p, requests[p].result.(fromEntry := row), InsertToEntry);
      }
    }

    method InsertToEntryRow(p: nat) returns (err: Error)
      requires At(p, InsertToEntry)
      modifies this
      ensures Model() == After(old(Model()), p, old(schedule[0])) && schedule == old(schedule[1..])
      ensures if err == Nil then At(p, FirstUpdate) else At(p, Rollback)
      ensures requests[p].req == old(requests[p].req)
    {
      hide Apply;
      var fault := TakeTurn(p);
      err := InsertToEntryRowNow(p, fault);
    }

    method InsertToEntryRowNow(p: nat, fault: bool) returns (err: Error)
      requires p < |requests| && requests[p].stage == InsertToEntry
      modifies `nextEntry, `requests
      ensures Model() == Apply(old(Model()), TurnEvent(old(Model()), p, fault))
      ensures |requests| == |old(requests)| && requests[p].req == old(requests[p].req)
      ensures requests[p].stage == if err == Nil then FirstUpdate else Rollback
    {
      var arg := requests[p].req;
      var row;
      row, err := CreateEntry(p, arg.toId, arg.amount, fault);
      if err != Nil {
        GotoStage(p, Rollback);
      } else {
        Advance(p, requests[p].result.(toEntry := row), FirstUpdate);
      }
    }

    /** One update, and what becomes of the row it returns. */
    method UpdateAndAdvance(p: nat, id: int, amount: int, toFrom: bool, fault: bool) returns (err: Error)
      requires p < |requests| && Updating(requests[p]) && Pending(requests[p]) == Update(id, amount, toFrom)
      modifies `locks, `requests
      ensures Model() == Apply(old(Model()), TurnEvent(old(Model()), p, fault))
      ensures |requests| == |old(requests)| && requests[p].req == old(requests[p].req)
      ensures requests[p].stage == if err == Nil && old(requests[p].stage.FirstUpdate?) then SecondUpdate else Commit
    {
      UpdateTurn(Model(), p, fault);
      hide Apply;
      hide AddBalance;
      var first := requests[p].stage.FirstUpdate?;
      var row;
      row, err := AddAccountBalance(p, id, amount, fault);
      if err == Nil {
        var result := requests[p].result;
        Advance(p, if toFrom then result.(fromAccount := row) else result.(toAccount := row),
                if first then SecondUpdate else Commit);
      } else {
        GotoStage(p, Commit);
      }
    }

    /** One of the two updates of `addMoney`; `toFrom` tells which result field the row goes to. */
    method MoveMoney(p: nat, id: int, amount: int, toFrom: bool) returns (err: Error)
      requires At(p, FirstUpdate) || At(p, SecondUpdate)
      requires Pending(requests[p]) == Update(id, amount, toFrom)
      modifies this
      ensures Model() == After(old(Model()), p, old(schedule[0])) && schedule == old(schedule[1..])
      ensures At(p, if err == Nil && old(requests[p].stage.FirstUpdate?) then SecondUpdate else Commit)
      ensures requests[p].req == old(requests[p].req)
    {
      hide Apply;
      var fault := TakeTurn(p);
      err := UpdateAndAdvance(p, id, amount, toFrom, fault);
    }

    method AddMoney(p: nat, id1: int, amount1: int, from1: bool, id2: int, amount2: int, from2: bool)
      returns (err: Error)
      requires At(p, FirstUpdate)
      requires FirstUpdateOf(requests[p].req) == Update(id1, amount1, from1)
      requires SecondUpdateOf(requests[p].req) == Update(id2, amount2, from2)
      modifies this
      ensures Drive(Model(), p, schedule) == old(Drive(Model(), p, schedule))
      ensures At(p, Commit)
    {
      hide After;
      err := MoveMoney(p, id1, amount1, from1);
      if err != Nil {
        return;
      }
      err := MoveMoney(p, id2, amount2, from2);
    }

    /** The closure that `TransferTx` hands to `execTX`. The error of `addMoney` stays in the inner
        variable; the closure returns nil. */
    method TransferClosure(p: nat) returns (err: Error)
      requires At(p, InsertTransfer)
      modifies this
      ensures Drive(Model(), p, schedule) == old(Drive(Model(), p, schedule))
      ensures if err == Nil then At(p, Commit) else At(p, Rollback)
    {
      hide After;
      var arg := requests[p].req;
      err := InsertTransferRow(p);
      assert Drive(Model(), p, schedule) == old(Drive(Model(), p, schedule));
      if err != Nil {
        return;
      }
      err := InsertFromEntryRow(p);
      assert Drive(Model(), p, schedule) == old(Drive(Model(), p, schedule));
      if err != Nil {
        return;
      }
      err := InsertToEntryRow(p);
      assert Drive(Model(), p, schedule) == old(Drive(Model(), p, schedule));
      if err != Nil {
        return;
      }
      if arg.fromId < arg.toId {
        err := AddMoney(p, arg.fromId, Negate(arg.amount), true, arg.toId, arg.amount, false);
      } else {
        err := AddMoney(p, arg.toId, arg.amount, false, arg.fromId, Negate(arg.amount), true);
      }
      err := Nil;
    }

    /** `TransferTx`, statement by statement, is the step system driven through the transaction. */
    method TransferTx(p: nat) returns (result: TxResult, err: Error)
      requires At(p, BeginTx)
      modifies this
      ensures Model() == old(Drive(Model(), p, schedule))
      ensures if err == Nil then At(p, Done(OK)) else At(p, Done(InternalError))
      ensures result == requests[p].result
    {
      hide After;
      ghost var end := Drive(Model(), p, schedule);
      err := Begin(p);
      assert Drive(Model(), p, schedule) == end;
      if err == Nil {
        err := TransferClosure(p);
        assert Drive(Model(), p, schedule) == end;
        if err != Nil {
          RollbackTx(p);
        } else {
          err := CommitTx(p);
        }
      }
      assert Drive(Model(), p, schedule) == end;
      result := requests[p].result;
    }

    /* ---- api/transfer.go ---- */

    method ValidAccountStep(p: nat, id: int, currency: string, fault: bool)
      returns (account: Option<Account>, status: Option<Status>)
      ensures status == if fault then Some(InternalError) else ValidAccount(accounts, id, currency)
      ensures status == None ==> id in accounts && account == Some(accounts[id])
    {
      var err;
      account, err := GetAccount(id, fault);
      if err == ErrNoRows {
        return account, Some(NotFound);
      } else if err != Nil {
        return account, Some(InternalError);
      }
      if account.value.currency != currency {
        return account, Some(BadRequest);
      }
      status := None;
    }

    method CheckFromAccount(p: nat) returns (rejected: Option<Status>)
      requires At(p, CheckFrom)
      modifies this
      ensures Model() == After(old(Model()), p, old(schedule[0])) && schedule == old(schedule[1..])
      ensures At(p, if rejected.Some? then Done(rejected.value) else CheckTo) && rejected != Some(OK)
    {
      var fault := TakeTurn(p);
      var account;
      account, rejected := ValidAccountStep(p, requests[p].req.fromId, requests[p].req.currency, fault);
      if rejected == None && account.value.owner != requests[p].user {
        rejected := Some(Unauthorized);
      }
      GotoStage(p, if rejected.Some? then Done(rejected.value) else CheckTo);
    }

    method CheckToAccount(p: nat) returns (rejected: Option<Status>)
      requires At(p, CheckTo)
      modifies this
      ensures Model() == After(old(Model()), p, old(schedule[0])) && schedule == old(schedule[1..])
      ensures At(p, if rejected.Some? then Done(rejected.value) else BeginTx) && rejected != Some(OK)
    {
      var fault := TakeTurn(p);
      var account;
      account, rejected := ValidAccountStep(p, requests[p].req.toId, requests[p].req.currency, fault);
      GotoStage(p, if rejected.Some? then Done(rejected.value) else BeginTx);
    }

    /** The whole handler, other sessions running before every statement, is one interleaving of the
        step system; its HTTP status and body are those of the request in that run. */
    method HandleCreateTransfer(user: string, req: TransferRequest) returns (status: Status, body: Option<TxResult>)
      requires Foreign(schedule, |requests|) && |schedule| >= 9
      modifies this
      ensures Model() == Drive(ExecArrive(old(Model()), user, req), |old(requests)|, old(schedule))
      ensures |old(requests)| < |requests| && requests[|old(requests)|].stage == Done(status)
      ensures body == if status == OK then Some(requests[|old(requests)|].result) else None
      ensures !(1 <= req.fromId <= 0x7FFF_FFFF_FFFF_FFFF && 1 <= req.toId <= 0x7FFF_FFFF_FFFF_FFFF
                && 1 <= req.amount <= 0x7FFF_FFFF_FFFF_FFFF && req.currency in {"USD", "EUR", "CAD"})
              ==> status == BadRequest && Model() == old(Model()).(requests := requests)
                  && schedule == old(schedule)
    {
      hide After;
      var p := |requests|;
      var stage := if Binds(req) then CheckFrom else Done(BadRequest);
      requests := requests + [Request(user, req, stage, false, NO_WRITES, NO_RESULT)];
      if !Binds(req) {
        return BadRequest, None;
      }
      ghost var end := Drive(Model(), p, schedule);
      var rejected := CheckFromAccount(p);
      assert Drive(Model(), p, schedule) == end;
      if rejected == None {
        rejected := CheckToAccount(p);
        assert Drive(Model(), p, schedule) == end;
      }
      if rejected.Some? {
        return rejected.value, None;
      }
      var result, err := TransferTx(p);
      if err != Nil {
        return InternalError, None;
      }
      return OK, Some(result);
    }

    /* ---- api/account.go ---- */

    /** `createAccount`: opening balance 0, one INSERT outside any transaction. A fault is an INSERT
        that fails for an outside reason. */
    method HandleCreateAccount(owner: string, currency: string, fault: bool)
      returns (status: Status, account: Option<Account>)
      modifies `accounts, `nextAccount, `log
      ensures Model() == Apply(old(Model()), OpenAccount(owner, currency, fault))
      ensures status == BadRequest <==> currency !in {"USD", "EUR", "CAD"}
      ensures status == InternalError <==> currency in {"USD", "EUR", "CAD"} && fault
      ensures status == OK <==> !fault && currency in {"USD", "EUR", "CAD"} && old(owner in users
                && forall id | id in accounts :: !(accounts[id].owner == owner && accounts[id].currency == currency))
      ensures status in {OK, BadRequest, Forbidden, InternalError}
      ensures account.Some? <==> status == OK
      ensures status == OK ==> account == Some(Account(old(nextAccount), owner, 0, currency))
      ensures status == OK ==> accounts == old(accounts)[old(nextAccount) := account.value]
      ensures status != OK ==> accounts == old(accounts) && log == old(log)
    {
      if !IsSupportedCurrency(currency) {
        return BadRequest, None;
      }
      var id := nextAccount;
      nextAccount := nextAccount + 1;
      if fault {
        return InternalError, None;
      }
      if owner !in users || exists k | k in accounts :: accounts[k].owner == owner && accounts[k].currency == currency {
        return Forbidden, None;
      }
      var row := Account(id, owner, 0, currency);
      accounts := accounts[id := row];
      log := log + [Opened(row)];
      return OK, Some(row);
    }
  }
}
