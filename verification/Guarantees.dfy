/** What a single transfer can rely on: checks made before the transaction still hold inside it,
    64-bit arithmetic does not overflow, and the error that `TransferTx` drops loses nothing. */
module Guarantees {
  import opened Ledger
  import opened Transfers
  import opened TransferInvariant
  import opened Serializability
  import opened LedgerLaws

  /** Check-then-act: existence, currencies, owner and amount were checked before BEGIN, by reads
      outside the transaction, and hold at every statement, at the commit and ever after. */
  lemma ChecksStillHold(s0: State, events: seq<Event>, pid: nat)
    requires Initial(s0)
    requires var s := Exec(s0, events); pid < |s.requests| && Admitted(s.requests[pid].stage)
    ensures var s := Exec(s0, events);
            var r := s.requests[pid];
            var accounts := s.tables.accounts;
            && r.req.fromId in accounts && r.req.toId in accounts
            && accounts[r.req.fromId].currency == r.req.currency == accounts[r.req.toId].currency
            && accounts[r.req.fromId].owner == r.user
            && 0 < r.req.amount
  {
    HandlersKeepInv(s0, events);
    assert Served(Exec(s0, events).tables.accounts, Exec(s0, events).requests[pid]);
    hide Inv;
  }

  /* ---- Overflow ---- */

  /** Net effect on one account of the requests that were answered OK. */
  function Net(rs: seq<Request>, account: int): int {
    if |rs| == 0 then 0
    else
      var r := rs[|rs| - 1];
      Net(rs[..|rs| - 1], account) + (if r.stage == Done(OK) then Delta(OrderOf(r.req), account) else 0)
  }

  predicate Touches(r: Request, account: int) {
    r.req.fromId == account || r.req.toId == account
  }

  /** Sizes of the transfers touching the account whose transaction is open or has committed. */
  function Exposure(rs: seq<Request>, account: int): int {
    if |rs| == 0 then 0
    else
      var r := rs[|rs| - 1];
      Exposure(rs[..|rs| - 1], account) + (if Started(r.stage) && Touches(r, account) then Abs(r.req.amount) else 0)
  }

  lemma {:induction false} NetUpdate(rs: seq<Request>, p: nat, r: Request, account: int)
    requires p < |rs| && rs[p].stage != Done(OK)
    ensures Net(rs[p := r], account)
            == Net(rs, account) + (if r.stage == Done(OK) then Delta(OrderOf(r.req), account) else 0)
  {
    var n := |rs| - 1;
    if p == n {
      assert rs[p := r][..n] == rs[..n];
    } else {
      assert rs[p := r][..n] == rs[..n][p := r];
      NetUpdate(rs[..n], p, r, account);
    }
  }

  /** From an account to itself a committed debit has undone the credit. */
  predicate SelfMovesCancel(rs: seq<Request>) {
    forall p | 0 <= p < |rs| && rs[p].stage == Done(OK) ::
      rs[p].req.fromId == rs[p].req.toId ==> rs[p].req.amount != MIN_INT64
  }

  function Abs(x: int): nat {
    if x < 0 then -x else x
  }

  lemma {:induction false} NetBelowExposure(rs: seq<Request>, account: int)
    requires SelfMovesCancel(rs)
    ensures Abs(Net(rs, account)) <= Exposure(rs, account)
  {
    if |rs| == 0 {
    } else {
      NetBelowExposure(rs[..|rs| - 1], account);
    }
  }

  /** An open transfer still has its own amount to spare. */
  lemma {:induction false} RoomForOneMore(rs: seq<Request>, p: nat, account: int)
    requires SelfMovesCancel(rs) && p < |rs|
    requires Started(rs[p].stage) && rs[p].stage != Done(OK) && Touches(rs[p], account)
    ensures Abs(Net(rs, account)) + Abs(rs[p].req.amount) <= Exposure(rs, account)
  {
    if p == |rs| - 1 {
      NetBelowExposure(rs[..p], account);
    } else {
      RoomForOneMore(rs[..|rs| - 1], p, account);
    }
  }

  predicate BalanceIsNet(opening: map<int, Account>, s: State, a: int) {
    if a in s.tables.accounts then s.tables.accounts[a].balance == Opening(opening, a) + Net(s.requests, a)
    else a !in opening && Net(s.requests, a) == 0
  }

  lemma CommitKeepsNet(opening: map<int, Account>, s: State, pid: nat, a: int)
    requires pid < |s.requests| && Coherent(s.tables.accounts, s.requests[pid])
    requires s.requests[pid].stage.Commit? && !s.requests[pid].aborted && BalanceIsNet(opening, s, a)
    ensures BalanceIsNet(opening, Install(s, pid), a)
  {
    CommitIsSerial(s, pid);
    NetUpdate(s.requests, pid, Install(s, pid).requests[pid], a);
  }

  lemma PrivateMoveKeepsNet(opening: map<int, Account>, s: State, e: Event, a: int)
    requires BalanceIsNet(opening, s, a)
    requires (e.Step? || e.Fail?) && Enabled(s, e) && !Commits(s, e)
    ensures BalanceIsNet(opening, Apply(s, e), a)
  {
    PrivateMove(s, e.pid);
    hide ExecStep;
    hide ExecFail;
    NetUpdate(s.requests, e.pid, Apply(s, e).requests[e.pid], a);
  }

  lemma ApplyKeepsNet(opening: map<int, Account>, s: State, e: Event, a: int)
    requires Inv(s) && BalanceIsNet(opening, s, a)
    ensures BalanceIsNet(opening, Apply(s, e), a)
  {
    hide Coherent;
    if Enabled(s, e) {
      match e
      case Arrive(user, req) => assert Apply(s, e).requests[..|s.requests|] == s.requests;
      case OpenAccount(_, _, _) =>
      case Step(pid) =>
        if Commits(s, e) { CommitKeepsNet(opening, s, pid, a); } else { PrivateMoveKeepsNet(opening, s, e, a); }
      case Fail(_) => PrivateMoveKeepsNet(opening, s, e, a);
    }
  }

  lemma {:induction false} BalancesAreNet(s0: State, events: seq<Event>, a: int)
    requires Start(s0)
    ensures BalanceIsNet(s0.tables.accounts, Exec(s0, events), a)
  {
    if |events| == 0 {
      NothingNetYet(s0.requests, a);
    } else {
      var before := events[..|events| - 1];
      BalancesAreNet(s0, before, a);
      StartInv(s0);
      ExecKeepsInv(s0, before);
      ApplyKeepsNet(s0.tables.accounts, Exec(s0, before), events[|events| - 1], a);
    }
  }

  lemma SelfMovesDoCancel(s0: State, events: seq<Event>)
    requires Start(s0)
    ensures SelfMovesCancel(Exec(s0, events).requests)
  {
    var s := Exec(s0, events);
    Serializable(s0, events);
    forall p | 0 <= p < |s.requests| && s.requests[p].stage == Done(OK)
      ensures s.requests[p].req.fromId == s.requests[p].req.toId ==> s.requests[p].req.amount != MIN_INT64
    {
      var i :| 0 <= i < |s.log| && IsCommitOf(s.log[i], p);
      assert Answered(s0.tables, s, i) && ValidAt(s0.tables, s.log, i);
    }
    hide Exec;
    hide Replay;
  }

  lemma {:induction false} NothingNetYet(rs: seq<Request>, a: int)
    requires forall p | 0 <= p < |rs| :: AboutToBegin(rs[p])
    ensures Net(rs, a) == 0
  {
    if |rs| == 0 {
    } else {
      NothingNetYet(rs[..|rs| - 1], a);
    }
  }

  /** A committed balance never strays from the opening balance by more than the amounts moved, direct
      calls with amounts of either sign included. */
  lemma BalanceBound(s0: State, events: seq<Event>, a: int)
    requires Start(s0) && a in Exec(s0, events).tables.accounts
    ensures var s := Exec(s0, events);
            Abs(s.tables.accounts[a].balance - Opening(s0.tables.accounts, a)) <= Exposure(s.requests, a)
  {
    BalancesAreNet(s0, events, a);
    SelfMovesDoCancel(s0, events);
    NetBelowExposure(Exec(s0, events).requests, a);
    hide Exec;
    hide Start;
  }

  predicate Fits(s0: State, s: State, a: int) {
    Abs(Opening(s0.tables.accounts, a)) + Exposure(s.requests, a) <= MAX_INT64
  }

  /** One update, given that its row has room for the amount in both directions. */
  lemma UpdateFits(accounts: map<int, Account>, r: Request)
    requires Updating(r) && Coherent(accounts, r)
    requires var a := Pending(r).id; a in accounts ==> Abs(accounts[a].balance) + Abs(r.req.amount) <= MAX_INT64
    requires Abs(r.req.amount) <= MAX_INT64
    ensures AddBalance(accounts, r.writes.rows, Pending(r).id, Pending(r).delta) != Failed
    ensures DebitOf(r.req).delta == -r.req.amount
  {
    hide HasInserts;
  }

  /** While opening balance and amounts fit, no update overflows, the intermediate value of a
      transfer from an account to itself included; and the debit really is the negated amount. */
  lemma NoOverflow(s0: State, events: seq<Event>, pid: nat)
    requires Start(s0)
    requires var s := Exec(s0, events); pid < |s.requests| && Updating(s.requests[pid])
    requires Fits(s0, Exec(s0, events), Pending(Exec(s0, events).requests[pid]).id)
    ensures var s := Exec(s0, events);
            var r := s.requests[pid];
            && AddBalance(s.tables.accounts, r.writes.rows, Pending(r).id, Pending(r).delta) != Failed
            && DebitOf(r.req).delta == -r.req.amount
  {
    var s := Exec(s0, events);
    var r := s.requests[pid];
    var a := Pending(r).id;
    StartInv(s0);
    ExecKeepsInv(s0, events);
    BalancesAreNet(s0, events, a);
    SelfMovesDoCancel(s0, events);
    RoomForOneMore(s.requests, pid, a);
    CoherentAt(s, pid);
    hide Exec;
    hide Start;
    hide Inv;
    hide Net;
    hide Exposure;
    hide Coherent;
    assert Touches(r, a);
    UpdateFits(s.tables.accounts, r);
  }

  /* ---- The error that TransferTx drops ---- */

  /** `addMoney` never sees a missing row, in any interleaving and whatever `TransferTx` was called
      with: the inserts before it have passed the foreign keys, and accounts are never removed. */
  lemma NoUpdateFindsNoRow(s0: State, events: seq<Event>, pid: nat)
    requires Start(s0)
    requires var s := Exec(s0, events); pid < |s.requests| && Updating(s.requests[pid])
    ensures var s := Exec(s0, events);
            var r := s.requests[pid];
            AddBalance(s.tables.accounts, r.writes.rows, Pending(r).id, Pending(r).delta) != NoRows
  {
    StartInv(s0);
    ExecKeepsInv(s0, events);
    CoherentAt(Exec(s0, events), pid);
  }

  /** All five statements of the transaction have answered with a row. */
  predicate AllAnswered(result: TxResult) {
    && result.transfer.Some? && result.fromEntry.Some? && result.toEntry.Some?
    && result.fromAccount.Some? && result.toAccount.Some?
  }

  /** `TransferTx` returns nil whatever `addMoney` returned, and yet its answer is right. At the
      commit, whatever it was called with and whatever ran in between: success is reported if and
      only if both updates and all three inserts have answered with a row, and then the committed
      tables are those of the serial transfer; otherwise an error is reported and no table changes. */
  lemma CommitTellsTheTruth(s0: State, events: seq<Event>, pid: nat)
    requires Start(s0)
    requires var s := Exec(s0, events); pid < |s.requests| && s.requests[pid].stage.Commit?
    ensures var s := Exec(s0, events);
            var r := s.requests[pid];
            var s' := Apply(s, Step(pid));
            && pid < |s'.requests|
            && s'.requests[pid].result == r.result
            && s'.requests[pid].stage == Done(if AllAnswered(r.result) then OK else InternalError)
            && (if AllAnswered(r.result) then
                  && s'.tables == Perform(s.tables, Moved(pid, r.req, IdsOf(r.result)))
                  && r.req.fromId in s.tables.accounts && r.req.toId in s.tables.accounts
                  && r.result == SerialResult(s.tables.accounts, r.req, IdsOf(r.result))
                else s'.tables == s.tables)
  {
    var s := Exec(s0, events);
    StartInv(s0);
    ExecKeepsInv(s0, events);
    CoherentAt(s, pid);
    if !s.requests[pid].aborted {
      CommitIsSerial(s, pid);
    }
    hide Inv;
    hide Start;
    hide Exec;
  }

  /* ---- Outside failures ---- */

  /** Whether a statement of `p` has failed for an outside reason in the run. */
  function HasFailed(s: State, events: seq<Event>, p: nat): bool {
    if |events| == 0 then false
    else
      var before := events[..|events| - 1];
      HasFailed(s, before, p) || (events[|events| - 1] == Fail(p) && Enabled(Exec(s, before), Fail(p)))
  }

  /** On the way to an error. */
  predicate WillFail(s: State, p: nat) {
    && p < |s.requests|
    && var r := s.requests[p];
    && (r.stage.Commit? || r.stage.Rollback? || r.stage == Done(InternalError))
    && (r.stage.Commit? ==> r.aborted)
  }

  lemma FailureSticks(s: State, e: Event, p: nat)
    requires WillFail(s, p) || (e == Fail(p) && Enabled(s, e))
    ensures WillFail(Apply(s, e), p)
  {
    if e.Step? && Enabled(s, e) && e.pid != p {
      PrivateMove(s, e.pid);
      hide ExecStep;
    }
  }

  /** A statement that fails for an outside reason is reported: whatever it was, a commit or rollback
      included, the request can only end in the status 500. */
  lemma {:induction false} FailureIsReported(s: State, events: seq<Event>, p: nat)
    requires HasFailed(s, events, p)
    ensures var t := Exec(s, events);
            && p < |t.requests|
            && (t.requests[p].stage.Done? ==> t.requests[p].stage == Done(InternalError))
    ensures WillFail(Exec(s, events), p)
  {
    if |events| == 0 {
    } else {
      var before := events[..|events| - 1];
      if HasFailed(s, before, p) {
        FailureIsReported(s, before, p);
      }
      FailureSticks(Exec(s, before), events[|events| - 1], p);
      hide Apply;
    }
  }

  /* ---- What the handler's lower bound on the amount is for ---- */

  function FreshCall(fromId: int, toId: int, amount: int): Request {
    Request("", TransferRequest(fromId, toId, amount, ""), BeginTx, false, NO_WRITES, NO_RESULT)
  }

  /** Two accounts with nothing in them, and one direct call. */
  function TwoAccounts(amount: int): State {
    State(Tables(map[1 := Account(1, "ada", 0, "USD"), 2 := Account(2, "bob", 0, "USD")], [], []),
          {"ada", "bob"}, 3, 1, 1, map[], [FreshCall(1, 2, amount)], [])
  }

  const DEBITED: map<int, Account> :=
    map[1 := Account(1, "ada", MIN_INT64, "USD"), 2 := Account(2, "bob", MIN_INT64, "USD")]

  lemma LeastAmountInserts(s: State)
    requires s == TwoAccounts(MIN_INT64)
    ensures var s' := Apply(Apply(Apply(Apply(s, Step(0)), Step(0)), Step(0)), Step(0));
            && |s'.requests| == 1 && s'.tables == s.tables && s'.locks == map[]
            && s'.requests[0].stage == FirstUpdate && !s'.requests[0].aborted
            && s'.requests[0].req == s.requests[0].req
            && s'.requests[0].writes == Writes([Transfer(1, 1, 2, MIN_INT64)],
                                               [Entry(1, 1, MIN_INT64), Entry(2, 2, MIN_INT64)], map[])
  {
  }

  lemma LeastAmountUpdates(s: State)
    requires |s.requests| == 1 && s.tables == TwoAccounts(MIN_INT64).tables && s.locks == map[]
    requires s.requests[0].stage == FirstUpdate && !s.requests[0].aborted
    requires s.requests[0].req == FreshCall(1, 2, MIN_INT64).req
    requires s.requests[0].writes == Writes([Transfer(1, 1, 2, MIN_INT64)],
                                            [Entry(1, 1, MIN_INT64), Entry(2, 2, MIN_INT64)], map[])
    ensures var s' := Apply(Apply(Apply(s, Step(0)), Step(0)), Step(0));
            && |s'.requests| == 1 && s'.requests[0].stage == Done(OK)
            && s'.tables.entries == [Entry(1, 1, MIN_INT64), Entry(2, 2, MIN_INT64)]
            && s'.tables.accounts == DEBITED
  {
    var s1 := Apply(s, Step(0));
    assert s1.requests[0].stage == SecondUpdate && s1.locks == map[1 := 0];
    assert s1.requests[0].writes.rows == map[1 := Account(1, "ada", MIN_INT64, "USD")];
    var s2 := Apply(s1, Step(0));
    assert s2.requests[0].stage == Commit && !s2.requests[0].aborted;
    assert s2.requests[0].writes.rows == DEBITED;
  }

  /** Called directly with the least int64, `TransferTx` debits both accounts and reports success:
      the entries do not sum to zero. */
  lemma LeastAmountDebitsBoth() returns (s0: State, events: seq<Event>)
    ensures Start(s0) && |Exec(s0, events).requests| == 1
    ensures Exec(s0, events).requests[0].stage == Done(OK)
    ensures SumAllEntries(Exec(s0, events).tables.entries) == 2 * MIN_INT64
    ensures Exec(s0, events).tables.accounts == DEBITED
  {
    s0 := TwoAccounts(MIN_INT64);
    events := [Step(0), Step(0), Step(0), Step(0)] + [Step(0), Step(0), Step(0)];
    TwoAccountsStart(MIN_INT64);
    LeastAmountRun();
    LeastAmountSum();
    hide Start;
    hide Exec;
    hide SumAllEntries;
    hide TwoAccounts;
  }

  lemma TwoAccountsStart(amount: int)
    requires IsInt64(amount)
    ensures Start(TwoAccounts(amount))
  {
  }

  lemma LeastAmountSum()
    ensures SumAllEntries([Entry(1, 1, MIN_INT64), Entry(2, 2, MIN_INT64)]) == 2 * MIN_INT64
  {
    var es := [Entry(1, 1, MIN_INT64), Entry(2, 2, MIN_INT64)];
    assert es == [] + es;
    SumsAppendPair([], es[0], es[1], 0);
  }

  lemma LeastAmountRun()
    ensures var s' := Exec(TwoAccounts(MIN_INT64), [Step(0), Step(0), Step(0), Step(0)] + [Step(0), Step(0), Step(0)]);
            && |s'.requests| == 1 && s'.requests[0].stage == Done(OK)
            && s'.tables.entries == [Entry(1, 1, MIN_INT64), Entry(2, 2, MIN_INT64)]
            && s'.tables.accounts == DEBITED
  {
    hide Apply;
    var s0, e := TwoAccounts(MIN_INT64), Step(0);
    var s4 := Apply(Apply(Apply(Apply(s0, e), e), e), e);
    FourSteps(s0, e);
    ThreeSteps(s4, e);
    ExecAppend(s0, [e, e, e, e], [e, e, e]);
    hide Exec;
    LeastAmountInserts(s0);
    assert s0.requests[0].req == FreshCall(1, 2, MIN_INT64).req && s0.tables == TwoAccounts(MIN_INT64).tables;
    hide TwoAccounts;
    LeastAmountUpdates(s4);
  }

  lemma OneMoreStep(s: State, es: seq<Event>, e: Event)
    ensures Exec(s, es + [e]) == Apply(Exec(s, es), e)
  {
    assert (es + [e])[..|es|] == es;
  }

  lemma ThreeSteps(s: State, e: Event)
    ensures Exec(s, [e, e, e]) == Apply(Apply(Apply(s, e), e), e)
  {
    OneMoreStep(s, [], e);
    OneMoreStep(s, [e], e);
    OneMoreStep(s, [e, e], e);
    assert [] + [e] == [e] && [e] + [e] == [e, e] && [e, e] + [e] == [e, e, e];
    assert Exec(s, []) == s;
    hide Apply;
    hide Exec;
  }

  lemma FourSteps(s: State, e: Event)
    ensures Exec(s, [e, e, e, e]) == Apply(Apply(Apply(Apply(s, e), e), e), e)
  {
    ThreeSteps(s, e);
    OneMoreStep(s, [e, e, e], e);
    assert [e, e, e] + [e] == [e, e, e, e];
    hide Apply;
    hide Exec;
  }
}
