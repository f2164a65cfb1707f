/** The handler from end to end when nobody else interferes: which status it answers, and what it
    has then done. */
module QuietTransfers {
  import opened Wrappers
  import opened Ledger
  import opened Scheduling
  import opened Transfers
  import opened TransferInvariant
  import opened Serializability
  import opened Progress
  import opened RollbackIsolation
  import opened SQLStores

  /** A world in which nothing else happens and nothing fails. */
  function Quiet(n: nat): seq<Turn<Event>> {
    seq(n, i => Turn([], false))
  }

  /** Both new balances fit. From an account to itself only the credit is at stake; the debit
      restores the balance, unless the amount cannot be negated. */
  predicate SumsFit(accounts: map<int, Account>, req: TransferRequest)
    requires req.fromId in accounts && req.toId in accounts
  {
    if req.fromId == req.toId then
      && -0x8000_0000_0000_0000 <= accounts[req.toId].balance + req.amount <= 0x7FFF_FFFF_FFFF_FFFF
      && req.amount != -0x8000_0000_0000_0000
    else
      var debit := if req.amount == -0x8000_0000_0000_0000 then req.amount else -req.amount;
      && -0x8000_0000_0000_0000 <= accounts[req.fromId].balance + debit <= 0x7FFF_FFFF_FFFF_FFFF
      && -0x8000_0000_0000_0000 <= accounts[req.toId].balance + req.amount <= 0x7FFF_FFFF_FFFF_FFFF
  }

  predicate CanMove(accounts: map<int, Account>, req: TransferRequest) {
    && req.fromId in accounts && req.toId in accounts
    && SumsFit(accounts, req)
  }

  /** The status that a call of `TransferTx` deserves. */
  function TxVerdict(accounts: map<int, Account>, req: TransferRequest): Status {
    if CanMove(accounts, req) then OK else InternalError
  }

  function ToVerdict(accounts: map<int, Account>, req: TransferRequest): Status {
    if req.toId !in accounts then NotFound
    else if accounts[req.toId].currency != req.currency then BadRequest
    else TxVerdict(accounts, req)
  }

  function FromVerdict(accounts: map<int, Account>, user: string, req: TransferRequest): Status {
    if req.fromId !in accounts then NotFound
    else if accounts[req.fromId].currency != req.currency then BadRequest
    else if accounts[req.fromId].owner != user then Unauthorized
    else ToVerdict(accounts, req)
  }

  /** What a request that stands at its present stage is going to be answered. */
  function Verdict(accounts: map<int, Account>, r: Request): Status {
    match r.stage
    case Done(status) => status
    case CheckFrom => FromVerdict(accounts, r.user, r.req)
    case CheckTo => ToVerdict(accounts, r.req)
    case Rollback => InternalError
    case _ => if r.aborted then InternalError else TxVerdict(accounts, r.req)
  }

  /** The request has succeeded, doing to `t` what the serial transfer does. */
  predicate Succeeds(t: Tables, req: TransferRequest, s': State, p: nat) {
    && p < |s'.requests| && s'.requests[p].stage == Done(OK)
    && req.fromId in t.accounts && req.toId in t.accounts
    && var ids := IdsOf(s'.requests[p].result);
    && s'.tables == Perform(t, Moved(p, req, ids))
    && s'.requests[p].result == SerialResult(t.accounts, req, ids)
  }

  /** The request has been answered as it should, and the tables are as they should be. */
  predicate Ends(t: Tables, r: Request, s': State, p: nat) {
    && p < |s'.requests| && s'.requests[p].stage == Done(Verdict(t.accounts, r))
    && RowsAreFree(s', r.req, p)
    && if Verdict(t.accounts, r) == OK then Succeeds(t, r.req, s', p) else s'.tables == t
  }

  /** Nobody but `p` holds a row of the two accounts; others may hold other rows. */
  predicate RowsAreFree(s: State, req: TransferRequest, p: nat) {
    forall a | a in {req.fromId, req.toId} && a in s.locks :: s.locks[a] == p
  }

  predicate Undisturbed(s: State, p: nat) {
    Unfinished(s, p) && RowsAreFree(s, s.requests[p].req, p)
  }

  /** One quiet step: on towards the same verdict. */
  predicate OnCourse(s: State, s': State, p: nat)
    requires p < |s.requests|
  {
    && p < |s'.requests|
    && s'.tables == s.tables
    && s'.requests[p].req == s.requests[p].req
    && Verdict(s.tables.accounts, s'.requests[p]) == Verdict(s.tables.accounts, s.requests[p])
    && StatementsLeft(s'.requests[p].stage) < StatementsLeft(s.requests[p].stage)
    && RowsAreFree(s', s.requests[p].req, p)
    && s'.requests[p].stage != Done(OK)
  }

  lemma FirstUpdateOnCourse(s: State, p: nat)
    requires AccountsWellFormed(s) && Undisturbed(s, p) && Coherent(s.tables.accounts, s.requests[p])
    requires s.requests[p].stage.FirstUpdate?
    ensures OnCourse(s, ExecUpdate(s, p), p)
  {
    hide HasInserts;
  }

  lemma SecondUpdateOnCourse(s: State, p: nat)
    requires AccountsWellFormed(s) && Undisturbed(s, p) && Coherent(s.tables.accounts, s.requests[p])
    requires s.requests[p].stage.SecondUpdate?
    ensures OnCourse(s, ExecUpdate(s, p), p)
  {
    hide HasInserts;
    var u := FirstUpdateOf(s.requests[p].req);
    assert IsInt64(s.requests[p].writes.rows[u.id].balance);
  }

  lemma CheckOnCourse(s: State, p: nat)
    requires Undisturbed(s, p) && Coherent(s.tables.accounts, s.requests[p])
    requires var st := s.requests[p].stage; st.CheckFrom? || st.CheckTo? || st.BeginTx? || st.Rollback?
    ensures OnCourse(s, ExecStep(s, p), p)
  {
    hide TxVerdict;
  }

  lemma InsertOnCourse(s: State, p: nat)
    requires Undisturbed(s, p) && Coherent(s.tables.accounts, s.requests[p])
    requires var st := s.requests[p].stage; st.InsertTransfer? || st.InsertFromEntry? || st.InsertToEntry?
    ensures OnCourse(s, ExecStep(s, p), p)
  {
    hide SumsFit;
    hide HasTransfer;
    hide HasFromEntry;
  }

  lemma QuietStep(s: State, p: nat)
    requires AccountsWellFormed(s) && Undisturbed(s, p) && Coherent(s.tables.accounts, s.requests[p])
    requires !s.requests[p].stage.Commit?
    ensures Enabled(s, Step(p)) && OnCourse(s, ExecStep(s, p), p)
  {
    hide OnCourse;
    hide Coherent;
    match s.requests[p].stage
    case CheckFrom | CheckTo | BeginTx | Rollback => CheckOnCourse(s, p);
    case InsertTransfer | InsertFromEntry | InsertToEntry => InsertOnCourse(s, p);
    case FirstUpdate => FirstUpdateOnCourse(s, p);
    case SecondUpdate => SecondUpdateOnCourse(s, p);
  }

  lemma QuietTurn(s: State, p: nat, n: nat)
    requires Enabled(s, Step(p)) && n > 0
    ensures Drive(s, p, Quiet(n)) == Drive(ExecStep(s, p), p, Quiet(n - 1))
  {
    assert Quiet(n)[1..] == Quiet(n - 1);
    assert After(s, p, Quiet(n)[0]) == Apply(s, Step(p));
  }

  /** At the commit of a transaction that is not marked, both sums have fitted. */
  lemma SumsHaveFitted(s: State, p: nat)
    requires AccountsWellFormed(s) && Undisturbed(s, p) && Coherent(s.tables.accounts, s.requests[p])
    requires s.requests[p].stage.Commit? && !s.requests[p].aborted
    ensures CanMove(s.tables.accounts, s.requests[p].req)
  {
    var req := s.requests[p].req;
    assert s.requests[p].writes.rows == FinalRows(s.tables.accounts, req);
    assert req.toId in s.requests[p].writes.rows && req.fromId in s.requests[p].writes.rows;
  }

  lemma QuietCommit(s: State, p: nat, n: nat)
    requires AccountsWellFormed(s) && Undisturbed(s, p) && Coherent(s.tables.accounts, s.requests[p])
    requires s.requests[p].stage.Commit? && n > 0
    ensures Ends(s.tables, s.requests[p], Drive(s, p, Quiet(n)), p)
  {
    if !s.requests[p].aborted {
      SumsHaveFitted(s, p);
      CommitIsSerial(s, p);
    }
    hide Coherent;
    hide CanMove;
    QuietTurn(s, p, n);
    assert !Unfinished(ExecStep(s, p), p);
  }

  lemma {:induction false} QuietRunEnds(s: State, p: nat, n: nat)
    requires Inv(s) && Undisturbed(s, p) && n >= StatementsLeft(s.requests[p].stage)
    ensures Ends(s.tables, s.requests[p], Drive(s, p, Quiet(n)), p)
    decreases n
  {
    CoherentAt(s, p);
    hide Coherent;
    hide Verdict;
    if s.requests[p].stage.Commit? {
      QuietCommit(s, p, n);
    } else {
      QuietStep(s, p);
      StepKeepsInv(s, p);
      QuietTurn(s, p, n);
      hide ExecStep;
      hide Inv;
      if Unfinished(ExecStep(s, p), p) {
        QuietRunEnds(ExecStep(s, p), p, n - 1);
      } else {
        DoneVerdict(s.tables.accounts, ExecStep(s, p).requests[p]);
      }
    }
  }

  lemma DoneVerdict(accounts: map<int, Account>, r: Request)
    requires r.stage.Done?
    ensures Verdict(accounts, r) == r.stage.status
  {
  }

  /** What a successful transfer does, in plain terms: the payer has `amount` less and the payee
      `amount` more, nobody else's row changes, one transfer row and two entries are added, and the
      answer shows them. (`debit` is what is added to the payer: the negated amount.) */
  predicate MovesMoney(t: Tables, t': Tables, req: TransferRequest, debit: int, answer: TxResult) {
    && t'.accounts.Keys == t.accounts.Keys
    && (forall a | a in t.accounts && a != req.fromId && a != req.toId :: t'.accounts[a] == t.accounts[a])
    && (forall a | a in t.accounts && req.fromId == a == req.toId :: t'.accounts[a] == t.accounts[a])
    && (forall a | a in t.accounts && req.fromId == a != req.toId ::
          t'.accounts[a] == t.accounts[a].(balance := t.accounts[a].balance + debit))
    && (forall a | a in t.accounts && req.fromId != a == req.toId ::
          t'.accounts[a] == t.accounts[a].(balance := t.accounts[a].balance + req.amount))
    && answer.transfer.Some? && answer.fromEntry.Some? && answer.toEntry.Some?
    && var transfer := answer.transfer.value;
    && var paid, received := answer.fromEntry.value, answer.toEntry.value;
    && t'.transfers == t.transfers + [transfer]
    && transfer.fromId == req.fromId && transfer.toId == req.toId && transfer.amount == req.amount
    && t'.entries == t.entries + [paid, received]
    && paid.accountId == req.fromId && paid.amount == debit
    && received.accountId == req.toId && received.amount == req.amount
    && req.fromId in t'.accounts && answer.fromAccount == Some(t'.accounts[req.fromId])
    && req.toId in t.accounts
    && answer.toAccount == Some(t.accounts[req.toId].(balance := t.accounts[req.toId].balance + req.amount))
  }

  lemma SuccessMovesMoney(t: Tables, req: TransferRequest, s': State, p: nat)
    requires Succeeds(t, req, s', p)
    requires forall a | a in t.accounts :: t.accounts[a].id == a
    ensures var debit := if req.amount == -0x8000_0000_0000_0000 then req.amount else -req.amount;
            MovesMoney(t, s'.tables, req, debit, s'.requests[p].result)
  {
  }

  /** `TransferTx` itself, called with whatever arguments while nobody else disturbs it: it succeeds if
      and only if both accounts exist and both new balances fit, and has then moved the money;
      otherwise it reports an error and has changed no row. */
  lemma TransferTxAlone(s0: State, history: seq<Event>, p: nat)
    requires Start(s0)
    requires var s := Exec(s0, history); p < |s.requests| && s.requests[p].stage.BeginTx?
    requires RowsAreFree(Exec(s0, history), Exec(s0, history).requests[p].req, p)
    ensures var s := Exec(s0, history);
            var s' := Drive(s, p, Quiet(7));
            var req := s.requests[p].req;
            && p < |s'.requests|
            && s'.requests[p].stage == Done(if CanMove(s.tables.accounts, req) then OK else InternalError)
            && if s'.requests[p].stage == Done(OK) then
                 var debit := if req.amount == -0x8000_0000_0000_0000 then req.amount else -req.amount;
                 MovesMoney(s.tables, s'.tables, req, debit, s'.requests[p].result)
               else s'.tables == s.tables
  {
    var s := Exec(s0, history);
    StartInv(s0);
    ExecKeepsInv(s0, history);
    CoherentAt(s, p);
    QuietRunEnds(s, p, 7);
    if CanMove(s.tables.accounts, s.requests[p].req) {
      SuccessMovesMoney(s.tables, s.requests[p].req, Drive(s, p, Quiet(7)), p);
    }
    hide Inv;
    hide Start;
    hide CanMove;
    hide Drive;
    hide Exec;
    hide MovesMoney;
  }

  /** The handler driven alone. */
  function Alone(s: State, user: string, req: TransferRequest): State {
    Drive(ExecArrive(s, user, req), |s.requests|, Quiet(9))
  }

  /** The limits of the request, in numbers and names. */
  predicate WithinLimits(req: TransferRequest) {
    && 1 <= req.fromId <= 0x7FFF_FFFF_FFFF_FFFF && 1 <= req.toId <= 0x7FFF_FFFF_FFFF_FFFF
    && 1 <= req.amount <= 0x7FFF_FFFF_FFFF_FFFF
    && req.currency in {"USD", "EUR", "CAD"}
  }

  /** A request within its limits goes on to the check of the payer's account; every other one is
      answered 400. Either way nothing else changes. */
  lemma ArrivalIsChecked(s: State, user: string, req: TransferRequest)
    ensures var s' := Apply(s, Arrive(user, req));
            && |s'.requests| == |s.requests| + 1 && s'.requests[..|s.requests|] == s.requests
            && s'.requests[|s.requests|].user == user && s'.requests[|s.requests|].req == req
            && s'.requests[|s.requests|].stage == (if WithinLimits(req) then CheckFrom else Done(BadRequest))
            && s'.(requests := s.requests) == s
  {
  }

  /** The payer's account exists in the currency of the request and belongs to the caller. */
  predicate PayerIsGood(accounts: map<int, Account>, user: string, req: TransferRequest) {
    && req.fromId in accounts
    && accounts[req.fromId].currency == req.currency && accounts[req.fromId].owner == user
  }

  predicate MayTransfer(accounts: map<int, Account>, user: string, req: TransferRequest) {
    && WithinLimits(req) && PayerIsGood(accounts, user, req)
    && req.toId in accounts && accounts[req.toId].currency == req.currency
  }

  /** With nobody disturbing it `createTransfer` answers 200 if and only if the request is within its
      limits, both accounts exist in its currency, the payer is the caller and both sums fit; then
      the money has moved, and otherwise no row has changed. Each other status is exactly in its case. */
  lemma TransferAlone(s0: State, history: seq<Event>, user: string, req: TransferRequest)
    requires Start(s0) && RowsAreFree(Exec(s0, history), req, |Exec(s0, history).requests|)
    ensures var s := Exec(s0, history);
            var s' := Alone(s, user, req);
            var p := |s.requests|;
            var accounts := s.tables.accounts;
            && p < |s'.requests| && s'.requests[p].stage.Done?
            && var status := s'.requests[p].stage.status;
            && (status == OK <==> MayTransfer(accounts, user, req) && SumsFit(accounts, req))
            && (status == InternalError <==> MayTransfer(accounts, user, req) && !SumsFit(accounts, req))
            && (status == Unauthorized <==>
                && WithinLimits(req) && req.fromId in accounts
                && accounts[req.fromId].currency == req.currency && accounts[req.fromId].owner != user)
            && (status == NotFound <==>
                && WithinLimits(req)
                && (req.fromId !in accounts || (PayerIsGood(accounts, user, req) && req.toId !in accounts)))
            && (status == BadRequest <==>
                || !WithinLimits(req)
                || (req.fromId in accounts && accounts[req.fromId].currency != req.currency)
                || (PayerIsGood(accounts, user, req)
                    && req.toId in accounts && accounts[req.toId].currency != req.currency))
            && if status == OK then MovesMoney(s.tables, s'.tables, req, -req.amount, s'.requests[p].result)
               else s'.tables == s.tables
    ensures Inv(Alone(Exec(s0, history), user, req))
    ensures RowsAreFree(Alone(Exec(s0, history), user, req), req, |Exec(s0, history).requests|)
  {
    var s := Exec(s0, history);
    var p := |s.requests|;
    StartInv(s0);
    TransferInvariant.ExecKeepsInv(s0, history);
    ArriveKeepsInv(s, user, req);
    ArrivalIsChecked(s, user, req);
    AloneIsRun(s0, history, user, req);
    TransferInvariant.ExecKeepsInv(s0, AloneEvents(s0, history, user, req));
    hide Start;
    if WithinLimits(req) {
      QuietRunEnds(ExecArrive(s, user, req), p, 9);
      VerdictOnArrival(s, user, req);
      if FromVerdict(s.tables.accounts, user, req) == OK {
        SuccessMovesMoney(s.tables, req, Alone(s, user, req), p);
      }
    }
    hide Inv;
    hide Succeeds;
    hide MovesMoney;
    hide SumsFit;
    hide Exec;
    hide Alone;
  }

  lemma VerdictOnArrival(s: State, user: string, req: TransferRequest)
    requires WithinLimits(req)
    ensures var arrived := ExecArrive(s, user, req);
            Verdict(s.tables.accounts, arrived.requests[|s.requests|]) == FromVerdict(s.tables.accounts, user, req)
  {
  }

  /** The run that the lone handler is. */
  function AloneEvents(s0: State, history: seq<Event>, user: string, req: TransferRequest): seq<Event> {
    var s := Exec(s0, history);
    history + [Arrive(user, req)] + DriveEvents(ExecArrive(s, user, req), |s.requests|, Quiet(9))
  }

  lemma AloneIsRun(s0: State, history: seq<Event>, user: string, req: TransferRequest)
    ensures Alone(Exec(s0, history), user, req) == Exec(s0, AloneEvents(s0, history, user, req))
  {
    HandlerContinuesRun(s0, history, user, req, Quiet(9));
    hide Exec;
    hide Drive;
    hide DriveEvents;
    hide Quiet;
  }

  /** An answered request holds no row. */
  lemma DoneFreesRows(s: State, req: TransferRequest, p: nat)
    requires Inv(s) && p < |s.requests| && s.requests[p].stage.Done? && RowsAreFree(s, req, p)
    ensures req.fromId !in s.locks && req.toId !in s.locks
  {
    CoherentAt(s, p);
    hide Coherent;
  }

  /** Paying back: after a successful transfer the payee can return the same amount, always
      successfully, and all accounts are as they were before. */
  lemma PayingBackRestores(s0: State, history: seq<Event>, user: string, req: TransferRequest)
    requires Start(s0) && RowsAreFree(Exec(s0, history), req, |Exec(s0, history).requests|)
    requires var s := Exec(s0, history); Succeeded(Alone(s, user, req), |s.requests|)
    ensures var s := Exec(s0, history);
            && req.toId in s.tables.accounts
            && var s1 := Alone(s, user, req);
            && var back := TransferRequest(req.toId, req.fromId, req.amount, req.currency);
            && var s2 := Alone(s1, s.tables.accounts[req.toId].owner, back);
            && Succeeded(s2, |s1.requests|)
            && s2.tables.accounts == s.tables.accounts
  {
    var s := Exec(s0, history);
    var p := |s.requests|;
    var s1 := Alone(s, user, req);
    var back := TransferRequest(req.toId, req.fromId, req.amount, req.currency);
    TransferAlone(s0, history, user, req);
    DoneFreesRows(s1, req, p);
    AloneIsRun(s0, history, user, req);
    StartInv(s0);
    TransferInvariant.ExecKeepsInv(s0, history);
    hide Exec;
    hide Alone;
    hide MovesMoney;
    hide SumsFit;
    hide RequestsCoherent;
    hide LocksMatchWrites;
    hide Start;
    MayPayBack(s, s1, user, req, p);
    var payee := s.tables.accounts[req.toId].owner;
    TransferAlone(s0, AloneEvents(s0, history, user, req), payee, back);
    hide AloneEvents;
    MovedBack(s.tables, s1.tables, Alone(s1, payee, back).tables, req, s1.requests[p].result,
              Alone(s1, payee, back).requests[|s1.requests|].result);
  }

  lemma MovedBack(t: Tables, t1: Tables, t2: Tables, req: TransferRequest, there: TxResult, back: TxResult)
    requires MovesMoney(t, t1, req, -req.amount, there)
    requires MovesMoney(t1, t2, TransferRequest(req.toId, req.fromId, req.amount, req.currency), -req.amount, back)
    ensures t2.accounts == t.accounts
  {
    forall a | a in t.accounts
      ensures t2.accounts[a] == t.accounts[a]
    {
    }
  }

  lemma MayPayBack(s: State, s1: State, user: string, req: TransferRequest, p: nat)
    requires AccountsWellFormed(s)
    requires MayTransfer(s.tables.accounts, user, req) && SumsFit(s.tables.accounts, req)
    requires p < |s1.requests| && MovesMoney(s.tables, s1.tables, req, -req.amount, s1.requests[p].result)
    ensures var back := TransferRequest(req.toId, req.fromId, req.amount, req.currency);
            && MayTransfer(s1.tables.accounts, s.tables.accounts[req.toId].owner, back)
            && SumsFit(s1.tables.accounts, back)
  {
  }
}
