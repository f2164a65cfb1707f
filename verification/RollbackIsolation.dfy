/** A transaction that does not commit might as well not have run: take its statements out of the
    run, and everybody else gets the same answers over the same tables. Only row ids may differ,
    because sequence values drawn by a rolled back transaction are lost. */
module RollbackIsolation {
  import opened Wrappers
  import opened Ledger
  import opened Transfers
  import opened Serializability

  predicate SameTransfers(xs: seq<Transfer>, ys: seq<Transfer>) {
    |xs| == |ys| && forall i | 0 <= i < |xs| :: xs[i].(id := ys[i].id) == ys[i]
  }

  predicate SameEntries(xs: seq<Entry>, ys: seq<Entry>) {
    |xs| == |ys| && forall i | 0 <= i < |xs| :: xs[i].(id := ys[i].id) == ys[i]
  }

  predicate SameEntry(x: Option<Entry>, y: Option<Entry>) {
    x.Some? == y.Some? && (x.Some? ==> x.value.(id := y.value.id) == y.value)
  }

  predicate SameResult(x: TxResult, y: TxResult) {
    && x.transfer.Some? == y.transfer.Some?
    && (x.transfer.Some? ==> x.transfer.value.(id := y.transfer.value.id) == y.transfer.value)
    && SameEntry(x.fromEntry, y.fromEntry) && SameEntry(x.toEntry, y.toEntry)
    && x.fromAccount == y.fromAccount && x.toAccount == y.toAccount
  }

  predicate SameRequest(x: Request, y: Request) {
    && x.user == y.user && x.req == y.req && x.stage == y.stage && x.aborted == y.aborted
    && SameTransfers(x.writes.transfers, y.writes.transfers)
    && SameEntries(x.writes.entries, y.writes.entries)
    && x.writes.rows == y.writes.rows
    && SameResult(x.result, y.result)
  }

  predicate SameTables(x: Tables, y: Tables) {
    x.accounts == y.accounts && SameTransfers(x.transfers, y.transfers) && SameEntries(x.entries, y.entries)
  }

  /** `t` is `s` with request `p` never having done anything. */
  predicate Without(s: State, t: State, p: nat) {
    && SameTables(s.tables, t.tables)
    && s.users == t.users && s.nextAccount == t.nextAccount
    && |s.requests| == |t.requests|
    && (forall q | 0 <= q < |s.requests| && q != p :: SameRequest(s.requests[q], t.requests[q]))
    && (p < |t.requests| ==>
          t.requests[p].stage in {CheckFrom, BeginTx, Done(BadRequest)} && t.requests[p].writes == NO_WRITES)
    && LocksWithout(s.locks, t.locks, p)
  }

  predicate LocksWithout(locks: map<int, nat>, rest: map<int, nat>, p: nat) {
    && (forall a | a in locks && locks[a] != p :: a in rest && rest[a] == locks[a])
    && (forall a | a in rest :: a in locks && locks[a] == rest[a] != p)
  }

  predicate By(e: Event, p: nat) {
    (e.Step? || e.Fail?) && e.pid == p
  }

  /** The run without the statements of `p`, and without the attempts that were only waiting. */
  function Erase(s: State, events: seq<Event>, p: nat): seq<Event> {
    if |events| == 0 then []
    else
      var before := events[..|events| - 1];
      var e := events[|events| - 1];
      Erase(s, before, p) + (if By(e, p) || !Enabled(Exec(s, before), e) then [] else [e])
  }

  /* ---- Moves of `p` are invisible ---- */

  lemma OwnMoveLocks(s: State, e: Event)
    requires (e.Step? || e.Fail?) && Enabled(s, e)
    ensures forall a | a in Apply(s, e).locks && Apply(s, e).locks[a] != e.pid ::
              a in s.locks && s.locks[a] == Apply(s, e).locks[a]
    ensures forall a | a in s.locks && s.locks[a] != e.pid ::
              a in Apply(s, e).locks && Apply(s, e).locks[a] == s.locks[a]
    ensures Apply(s, e).users == s.users && Apply(s, e).nextAccount == s.nextAccount
  {
  }

  lemma OwnMoveIsInvisible(s: State, t: State, e: Event, p: nat)
    requires Without(s, t, p) && By(e, p) && Enabled(s, e) && !Commits(s, e)
    ensures Without(Apply(s, e), t, p)
  {
    OwnMoveLocks(s, e);
    PrivateMove(s, p);
    hide ExecStep;
    hide ExecFail;
  }

  /* ---- Everybody else does the same thing in both runs ---- */

  lemma StillEnabled(s: State, t: State, e: Event, p: nat)
    requires Without(s, t, p) && Enabled(s, e) && !By(e, p)
    ensures Enabled(t, e)
  {
    if e.Step? || e.Fail? {
      assert SameRequest(s.requests[e.pid], t.requests[e.pid]);
    }
  }

  predicate SameMove(s: State, t: State, s': State, t': State, q: nat)
    requires q < |s.requests| && q < |t.requests|
  {
    && q < |s'.requests| && q < |t'.requests|
    && s'.requests == s.requests[q := s'.requests[q]] && t'.requests == t.requests[q := t'.requests[q]]
    && SameRequest(s'.requests[q], t'.requests[q])
    && SameTables(s'.tables, t'.tables)
    && s'.users == s.users && t'.users == t.users
    && s'.nextAccount == s.nextAccount && t'.nextAccount == t.nextAccount
  }

  predicate TakesRow(s: State, q: nat)
    requires q < |s.requests|
  {
    var r := s.requests[q];
    Updating(r) && AddBalance(s.tables.accounts, r.writes.rows, Pending(r).id, Pending(r).delta).Row?
  }

  lemma UpdateMovesAlike(s: State, t: State, q: nat)
    requires q < |s.requests| && q < |t.requests| && SameTables(s.tables, t.tables)
    requires SameRequest(s.requests[q], t.requests[q]) && Updating(s.requests[q])
    ensures SameMove(s, t, ExecUpdate(s, q), ExecUpdate(t, q), q)
  {
    hide SameTransfers;
    hide SameEntries;
    hide SameEntry;
    var r := s.requests[q];
    assert Pending(t.requests[q]) == Pending(r);
    assert AddBalance(s.tables.accounts, r.writes.rows, Pending(r).id, Pending(r).delta)
        == AddBalance(t.tables.accounts, t.requests[q].writes.rows, Pending(r).id, Pending(r).delta);
    assert SameRequest(ExecUpdate(s, q).requests[q], ExecUpdate(t, q).requests[q]);
    hide SameRequest;
    hide SameTables;
  }

  lemma UpdateLocks(s: State, q: nat)
    requires q < |s.requests| && Updating(s.requests[q])
    ensures ExecUpdate(s, q).locks == if TakesRow(s, q) then s.locks[Pending(s.requests[q]).id := q] else s.locks
  {
  }

  lemma InsertTransferMovesAlike(s: State, t: State, q: nat)
    requires q < |s.requests| && q < |t.requests| && SameTables(s.tables, t.tables)
    requires SameRequest(s.requests[q], t.requests[q])
    ensures SameMove(s, t, ExecInsertTransfer(s, q), ExecInsertTransfer(t, q), q)
  {
    assert SameRequest(ExecInsertTransfer(s, q).requests[q], ExecInsertTransfer(t, q).requests[q]) by {
      hide SameEntries;
    }
    hide SameRequest;
    hide SameTables;
  }

  lemma InsertEntryMovesAlike(s: State, t: State, q: nat)
    requires q < |s.requests| && q < |t.requests| && SameTables(s.tables, t.tables)
    requires SameRequest(s.requests[q], t.requests[q])
    ensures SameMove(s, t, ExecInsertEntry(s, q), ExecInsertEntry(t, q), q)
  {
    assert SameRequest(ExecInsertEntry(s, q).requests[q], ExecInsertEntry(t, q).requests[q]) by {
      hide SameTransfers;
    }
    hide SameRequest;
    hide SameTables;
  }

  lemma EndMovesAlike(s: State, t: State, q: nat)
    requires q < |s.requests| && q < |t.requests| && SameTables(s.tables, t.tables)
    requires SameRequest(s.requests[q], t.requests[q])
    ensures SameMove(s, t, Discard(s, q), Discard(t, q), q)
    ensures SameMove(s, t, Install(s, q), Install(t, q), q)
  {
    hide SameResult;
  }

  lemma JumpMovesAlike(s: State, t: State, q: nat, stage: Stage)
    requires q < |s.requests| && q < |t.requests| && SameTables(s.tables, t.tables)
    requires SameRequest(s.requests[q], t.requests[q])
    ensures SameMove(s, t, Goto(s, q, stage), Goto(t, q, stage), q)
    ensures SameMove(s, t, Abort(s, q, stage), Abort(t, q, stage), q)
  {
  }

  lemma CheckMovesAlike(s: State, t: State, q: nat)
    requires q < |s.requests| && q < |t.requests| && SameTables(s.tables, t.tables)
    requires SameRequest(s.requests[q], t.requests[q])
    requires var st := s.requests[q].stage; st.CheckFrom? || st.CheckTo? || st.BeginTx?
    ensures SameMove(s, t, ExecStep(s, q), ExecStep(t, q), q)
  {
    var next := ExecStep(s, q).requests[q].stage;
    JumpMovesAlike(s, t, q, next);
    assert ExecStep(s, q) == Goto(s, q, next);
    assert ExecStep(t, q) == Goto(t, q, next);
    hide SameMove;
    hide ExecStep;
  }

  lemma FailMovesAlike(s: State, t: State, q: nat)
    requires Unfinished(s, q) && q < |t.requests| && SameTables(s.tables, t.tables)
    requires SameRequest(s.requests[q], t.requests[q])
    ensures SameMove(s, t, ExecFail(s, q), ExecFail(t, q), q)
  {
    hide SameMove;
    hide SameTables;
    JumpMovesAlike(s, t, q, Done(InternalError));
    JumpMovesAlike(s, t, q, Rollback);
    JumpMovesAlike(s, t, q, Commit);
    EndMovesAlike(s, t, q);
    hide Goto;
    hide Abort;
    hide Discard;
  }

  lemma StepMovesAlike(s: State, t: State, e: Event)
    requires e.Step? || e.Fail?
    requires Enabled(s, e) && Enabled(t, e)
    requires SameTables(s.tables, t.tables) && SameRequest(s.requests[e.pid], t.requests[e.pid])
    ensures SameMove(s, t, Apply(s, e), Apply(t, e), e.pid)
  {
    hide SameMove;
    hide SameTables;
    hide ExecFail;
    hide ExecUpdate;
    hide ExecInsertTransfer;
    hide ExecInsertEntry;
    hide Install;
    hide Discard;
    var q := e.pid;
    var stage := s.requests[q].stage;
    if e.Fail? {
      FailMovesAlike(s, t, q);
    } else if stage.CheckFrom? || stage.CheckTo? || stage.BeginTx? {
      CheckMovesAlike(s, t, q);
      hide ExecStep;
    } else if Updating(s.requests[q]) {
      UpdateMovesAlike(s, t, q);
    } else if stage.Commit? || stage.Rollback? {
      EndMovesAlike(s, t, q);
    } else {
      InsertTransferMovesAlike(s, t, q);
      InsertEntryMovesAlike(s, t, q);
    }
  }

  /** The locks after a move, in three shapes. */
  lemma MoveLocks(s: State, e: Event)
    requires (e.Step? || e.Fail?) && Enabled(s, e)
    ensures Apply(s, e).locks ==
            if e.Step? && TakesRow(s, e.pid) then s.locks[Pending(s.requests[e.pid]).id := e.pid]
            else if s.requests[e.pid].stage.Commit? || s.requests[e.pid].stage.Rollback? then Release(s.locks, e.pid)
            else s.locks
  {
    if e.Step? && Updating(s.requests[e.pid]) {
      UpdateLocks(s, e.pid);
      hide ExecUpdate;
    }
  }

  lemma RowsTakenAlike(s: State, t: State, q: nat)
    requires q < |s.requests| && q < |t.requests| && SameTables(s.tables, t.tables)
    requires SameRequest(s.requests[q], t.requests[q])
    ensures TakesRow(s, q) == TakesRow(t, q)
  {
  }

  lemma LocksMoveAlike(s: State, t: State, e: Event, p: nat)
    requires (e.Step? || e.Fail?) && e.pid != p && Enabled(s, e) && Enabled(t, e)
    requires LocksWithout(s.locks, t.locks, p)
    requires SameTables(s.tables, t.tables) && SameRequest(s.requests[e.pid], t.requests[e.pid])
    ensures LocksWithout(Apply(s, e).locks, Apply(t, e).locks, p)
  {
    RowsTakenAlike(s, t, e.pid);
    MoveLocks(s, e);
    MoveLocks(t, e);
    hide Apply;
    hide SameTables;
    hide SameTransfers;
    hide SameEntries;
    hide SameResult;
  }

  lemma OthersMoveAlike(s: State, t: State, e: Event, p: nat)
    requires Without(s, t, p) && (e.Step? || e.Fail?) && Enabled(s, e) && !By(e, p)
    ensures Enabled(t, e) && Without(Apply(s, e), Apply(t, e), p)
  {
    StillEnabled(s, t, e, p);
    hide SameTables;
    hide SameRequest;
    hide Apply;
    StepMovesAlike(s, t, e);
    LocksMoveAlike(s, t, e, p);
    hide LocksWithout;
  }

  lemma ArrivalsAlike(s: State, t: State, e: Event, p: nat)
    requires Without(s, t, p) && (e.Arrive? || e.OpenAccount?)
    ensures Without(Apply(s, e), Apply(t, e), p)
  {
    if e.Arrive? {
      assert SameRequest(Apply(s, e).requests[|s.requests|], Apply(t, e).requests[|s.requests|]);
      hide SameRequest;
    }
  }

  predicate Succeeded(s: State, p: nat) {
    p < |s.requests| && s.requests[p].stage == Done(OK)
  }

  lemma SuccessIsFinal(s: State, e: Event, p: nat)
    requires Succeeded(s, p)
    ensures Succeeded(Apply(s, e), p)
  {
    if Enabled(s, e) && (e.Step? || e.Fail?) {
      PrivateMove(s, e.pid);
      hide ExecStep;
      hide ExecFail;
    }
  }

  lemma CommitSucceeds(s: State, e: Event)
    requires Commits(s, e)
    ensures Succeeded(Apply(s, e), e.pid)
  {
  }

  lemma ErasedStepIsTheSame(s: State, t: State, e: Event, p: nat)
    requires Without(s, t, p) && !Succeeded(Apply(s, e), p)
    ensures Without(Apply(s, e), if By(e, p) || !Enabled(s, e) then t else Apply(t, e), p)
  {
    hide Without;
    if Enabled(s, e) {
      if By(e, p) {
        if Commits(s, e) {
          CommitSucceeds(s, e);
        }
        OwnMoveIsInvisible(s, t, e, p);
      } else if e.Step? || e.Fail? {
        OthersMoveAlike(s, t, e, p);
      } else {
        ArrivalsAlike(s, t, e, p);
      }
    }
    hide ExecStep;
    hide ExecFail;
  }

  lemma EmptyRunWithout(s0: State, p: nat)
    requires Start(s0)
    ensures Without(s0, s0, p)
  {
  }

  /** Rollback isolation: erase the statements of an unsuccessful request from a run, and every
      other request is at the same point with the same answer, over the same committed tables. */
  lemma {:induction false} ErasedRunIsTheSame(s0: State, events: seq<Event>, p: nat)
    requires Start(s0) && !Succeeded(Exec(s0, events), p)
    ensures Without(Exec(s0, events), Exec(s0, Erase(s0, events, p)), p)
  {
    if |events| == 0 {
      EmptyRunWithout(s0, p);
    } else {
      var before, e := events[..|events| - 1], events[|events| - 1];
      var s := Exec(s0, before);
      var erased := Erase(s0, before, p);
      var t := Exec(s0, erased);
      if Succeeded(s, p) {
        SuccessIsFinal(s, e, p);
      }
      ErasedRunIsTheSame(s0, before, p);
      ErasedStepIsTheSame(s, t, e, p);
      hide Without;
      hide Apply;
      hide Succeeded;
      assert Erase(s0, events, p) == if By(e, p) || !Enabled(s, e) then erased else erased + [e];
      assert (erased + [e])[..|erased|] == erased;
    }
  }
}
