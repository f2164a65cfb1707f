/** The transfer protocol as a step system: any number of `createTransfer` requests in flight,
    each with its own program counter, private writes and row locks, over the shared ledger.

    A statement of the program is one step. Assumptions about PostgreSQL at its default isolation
    level (read committed): a plain read sees committed rows only; an UPDATE takes the row lock,
    waits while another transaction holds it, and works on the newest committed version of the row
    or on its own earlier version; locks are kept to the end of the transaction; a failed statement
    marks the transaction, and committing a marked transaction rolls it back. Sequence values that
    were drawn are never given back. */
module Transfers {
  import opened Wrappers
  import opened Ledger

  datatype Status = OK | BadRequest | Unauthorized | Forbidden | NotFound | InternalError

  /** Where a request stands: the next thing its handler is going to do. */
  datatype Stage =
    | CheckFrom | CheckTo | BeginTx
    | InsertTransfer | InsertFromEntry | InsertToEntry | FirstUpdate | SecondUpdate
    | Commit | Rollback
    | Done(status: Status)

  /** What a transaction has written and nobody else can see yet. */
  datatype Writes = Writes(transfers: seq<Transfer>, entries: seq<Entry>, rows: map<int, Account>)

  const NO_WRITES: Writes := Writes([], [], map[])

  datatype Request = Request(
    user: string,
    req: TransferRequest,
    stage: Stage,
    aborted: bool,      // a statement of the transaction failed
    writes: Writes,
    result: TxResult)

  datatype State = State(
    tables: Tables,               // committed rows
    users: set<string>,
    nextAccount: nat, nextTransfer: nat, nextEntry: nat,  // sequence values
    locks: map<int, nat>,         // account row -> request whose transaction holds it
    requests: seq<Request>,       // every request ever received; a pid is a position
    log: seq<Change>)             // history of committed changes

  datatype Event =
    | Arrive(user: string, req: TransferRequest)
    | OpenAccount(owner: string, currency: string, fault: bool)
    | Step(pid: nat)    // the request executes its next statement
    | Fail(pid: nat)    // that statement fails for an outside reason (connection, deadline, ...)

  /* ---- Pieces of the handler ---- */

  predicate IsSupportedCurrency(currency: string) {
    currency == "USD" || currency == "EUR" || currency == "CAD"
  }

  /** The binding tags of `transferRequest`; a number that is no int64 does not decode. */
  predicate Binds(req: TransferRequest) {
    && 1 <= req.fromId <= MAX_INT64
    && 1 <= req.toId <= MAX_INT64
    && 0 < req.amount <= MAX_INT64
    && IsSupportedCurrency(req.currency)
  }

  /** `validAccount` on the committed rows: the status to answer with, or None to go on. */
  function ValidAccount(accounts: map<int, Account>, id: int, currency: string): Option<Status> {
    if id !in accounts then Some(NotFound)
    else if accounts[id].currency != currency then Some(BadRequest)
    else None
  }

  /** One of the two balance updates: the row, the signed amount, and which result field it fills. */
  datatype Update = Update(id: int, delta: int, fillsFrom: bool)

  function DebitOf(req: TransferRequest): Update {
    Update(req.fromId, Negate(req.amount), true)
  }

  function CreditOf(req: TransferRequest): Update {
    Update(req.toId, req.amount, false)
  }

  function FirstUpdateOf(req: TransferRequest): Update {
    if req.fromId < req.toId then DebitOf(req) else CreditOf(req)
  }

  function SecondUpdateOf(req: TransferRequest): Update {
    if req.fromId < req.toId then CreditOf(req) else DebitOf(req)
  }

  /** Result of a query that returns one row. */
  datatype Answer<T> = Row(row: T) | NoRows | Failed

  /** `UPDATE accounts SET balance = balance + delta WHERE id = id RETURNING ...` for a transaction
      that holds the row. bigint arithmetic fails when the sum does not fit. */
  function AddBalance(accounts: map<int, Account>, rows: map<int, Account>, id: int, delta: int): Answer<Account> {
    if id !in rows && id !in accounts then NoRows
    else
      var current := if id in rows then rows[id] else accounts[id];
      if IsInt64(current.balance + delta) then Row(Credit(current, delta)) else Failed
  }

  function Fill(result: TxResult, u: Update, row: Account): TxResult {
    if u.fillsFrom then result.(fromAccount := Some(row)) else result.(toAccount := Some(row))
  }

  function Release(locks: map<int, nat>, pid: nat): map<int, nat> {
    map a | a in locks && locks[a] != pid :: locks[a]
  }

  function IdsOf(result: TxResult): Ids {
    Ids(if result.transfer.Some? then result.transfer.value.id else 0,
        if result.fromEntry.Some? then result.fromEntry.value.id else 0,
        if result.toEntry.Some? then result.toEntry.value.id else 0)
  }

  /* ---- One step ---- */

  predicate Unfinished(s: State, pid: nat) {
    pid < |s.requests| && !s.requests[pid].stage.Done?
  }

  predicate Updating(r: Request) {
    r.stage.FirstUpdate? || r.stage.SecondUpdate?
  }

  /** The update a request is about to issue. */
  function Pending(r: Request): Update
    requires Updating(r)
  {
    if r.stage.FirstUpdate? then FirstUpdateOf(r.req) else SecondUpdateOf(r.req)
  }

  /** Request `p` waits for a row that the transaction of `q` holds. */
  predicate WaitsFor(s: State, p: nat, q: nat) {
    && p < |s.requests| && Updating(s.requests[p])
    && Pending(s.requests[p]).id in s.locks
    && s.locks[Pending(s.requests[p]).id] == q != p
  }

  predicate Blocked(s: State, p: nat) {
    && p < |s.requests| && Updating(s.requests[p])
    && Pending(s.requests[p]).id in s.locks
    && s.locks[Pending(s.requests[p]).id] != p
  }

  predicate Enabled(s: State, e: Event) {
    match e
    case Arrive(_, _) => true
    case OpenAccount(_, _, _) => true
    case Step(pid) => Unfinished(s, pid) && !Blocked(s, pid)
    case Fail(pid) => Unfinished(s, pid)
  }

  function Put(s: State, pid: nat, r: Request): State
    requires pid < |s.requests|
  {
    s.(requests := s.requests[pid := r])
  }

  function Goto(s: State, pid: nat, stage: Stage): State
    requires pid < |s.requests|
  {
    Put(s, pid, s.requests[pid].(stage := stage))
  }

  function Abort(s: State, pid: nat, stage: Stage): State
    requires pid < |s.requests|
  {
    Put(s, pid, s.requests[pid].(stage := stage, aborted := true))
  }

  function ExecInsertTransfer(s: State, pid: nat): State
    requires pid < |s.requests|
  {
    var r := s.requests[pid];
    var s1 := s.(nextTransfer := s.nextTransfer + 1);
    if r.req.fromId !in s.tables.accounts || r.req.toId !in s.tables.accounts then Abort(s1, pid, Rollback)
    else
      var row := Transfer(s.nextTransfer, r.req.fromId, r.req.toId, r.req.amount);
      Put(s1, pid, r.(stage := InsertFromEntry,
                      writes := r.writes.(transfers := r.writes.transfers + [row]),
                      result := r.result.(transfer := Some(row))))
  }

  function ExecInsertEntry(s: State, pid: nat): State
    requires pid < |s.requests|
  {
    var r := s.requests[pid];
    var isFrom := r.stage.InsertFromEntry?;
    var account := if isFrom then r.req.fromId else r.req.toId;
    var s1 := s.(nextEntry := s.nextEntry + 1);
    if account !in s.tables.accounts then Abort(s1, pid, Rollback)
    else
      var row := Entry(s.nextEntry, account, if isFrom then Negate(r.req.amount) else r.req.amount);
      Put(s1, pid, r.(stage := if isFrom then InsertToEntry else FirstUpdate,
                      writes := r.writes.(entries := r.writes.entries + [row]),
                      result := if isFrom then r.result.(fromEntry := Some(row))
                                else r.result.(toEntry := Some(row))))
  }

  /** Both failures end at `Commit`: `addMoney` returns early and its error is dropped. */
  function ExecUpdate(s: State, pid: nat): State
    requires pid < |s.requests| && Updating(s.requests[pid])
  {
    var r := s.requests[pid];
    var u := Pending(r);
    match AddBalance(s.tables.accounts, r.writes.rows, u.id, u.delta)
    case Row(row) =>
      Put(s.(locks := s.locks[u.id := pid]), pid,
          r.(stage := if r.stage.FirstUpdate? then SecondUpdate else Commit,
             writes := r.writes.(rows := r.writes.rows[u.id := row]),
             result := Fill(r.result, u, row)))
    case NoRows => Goto(s, pid, Commit)
    case Failed => Abort(s, pid, Commit)
  }

  function Discard(s: State, pid: nat): State
    requires pid < |s.requests|
  {
    var r := s.requests[pid];
    Put(s.(locks := Release(s.locks, pid)), pid, r.(stage := Done(InternalError), writes := NO_WRITES))
  }

  function Install(s: State, pid: nat): State
    requires pid < |s.requests|
  {
    var r := s.requests[pid];
    Put(s.(tables := Tables(s.tables.accounts + r.writes.rows,
                            s.tables.transfers + r.writes.transfers,
                            s.tables.entries + r.writes.entries),
           locks := Release(s.locks, pid),
           log := s.log + [Moved(pid, r.req, IdsOf(r.result))]),
        pid, r.(stage := Done(OK), writes := NO_WRITES))
  }

  function ExecStep(s: State, pid: nat): State
    requires Unfinished(s, pid)
  {
    var r := s.requests[pid];
    match r.stage
    case CheckFrom =>
      (match ValidAccount(s.tables.accounts, r.req.fromId, r.req.currency)
       case Some(status) => Goto(s, pid, Done(status))
       case None =>
         if s.tables.accounts[r.req.fromId].owner != r.user then Goto(s, pid, Done(Unauthorized))
         else Goto(s, pid, CheckTo))
    case CheckTo =>
      (match ValidAccount(s.tables.accounts, r.req.toId, r.req.currency)
       case Some(status) => Goto(s, pid, Done(status))
       case None => Goto(s, pid, BeginTx))
    case BeginTx => Goto(s, pid, InsertTransfer)
    case InsertTransfer => ExecInsertTransfer(s, pid)
    case InsertFromEntry => ExecInsertEntry(s, pid)
    case InsertToEntry => ExecInsertEntry(s, pid)
    case FirstUpdate => ExecUpdate(s, pid)
    case SecondUpdate => ExecUpdate(s, pid)
    case Commit => if r.aborted then Discard(s, pid) else Install(s, pid)
    case Rollback => Discard(s, pid)
  }

  /** An outside failure of the statement that the request is at. */
  function ExecFail(s: State, pid: nat): State
    requires Unfinished(s, pid)
  {
    match s.requests[pid].stage
    case CheckFrom | CheckTo | BeginTx => Goto(s, pid, Done(InternalError))
    case InsertTransfer | InsertFromEntry | InsertToEntry => Abort(s, pid, Rollback)
    case FirstUpdate | SecondUpdate => Abort(s, pid, Commit)
    case Commit | Rollback => Discard(s, pid)
  }

  function ExecArrive(s: State, user: string, req: TransferRequest): State {
    var stage := if Binds(req) then CheckFrom else Done(BadRequest);
    s.(requests := s.requests + [Request(user, req, stage, false, NO_WRITES, NO_RESULT)])
  }

  /** `createAccount`: one INSERT, outside any transaction, with balance 0. The sequence value is
      drawn even when a constraint then refuses the row, or the INSERT fails for an outside reason. */
  function ExecOpenAccount(s: State, owner: string, currency: string, fault: bool): State {
    if !IsSupportedCurrency(currency) then s
    else
      var s1 := s.(nextAccount := s.nextAccount + 1);
      if fault || owner !in s.users || exists id | id in s.tables.accounts ::
           s.tables.accounts[id].owner == owner && s.tables.accounts[id].currency == currency
      then s1
      else
        var a := Account(s.nextAccount, owner, 0, currency);
        s1.(tables := s.tables.(accounts := s.tables.accounts[a.id := a]), log := s.log + [Opened(a)])
  }

  /** A disabled event changes nothing: a waiting request stays where it is. */
  function Apply(s: State, e: Event): State {
    if !Enabled(s, e) then s
    else match e
      case Arrive(user, req) => ExecArrive(s, user, req)
      case OpenAccount(owner, currency, fault) => ExecOpenAccount(s, owner, currency, fault)
      case Step(pid) => ExecStep(s, pid)
      case Fail(pid) => ExecFail(s, pid)
  }

  /** A run. Every interleaving of every set of requests is `Exec` of some event list. */
  function Exec(s: State, events: seq<Event>): State {
    if |events| == 0 then s else Apply(Exec(s, events[..|events| - 1]), events[|events| - 1])
  }

  /** A caller of `TransferTx` that is about to begin, with whatever arguments: three int64. */
  predicate AboutToBegin(r: Request) {
    && r.stage.BeginTx? && !r.aborted && r.writes == NO_WRITES && r.result == NO_RESULT
    && IsInt64(r.req.fromId) && IsInt64(r.req.toId) && IsInt64(r.req.amount)
  }

  /** The constraints on account rows: the owner is a user, and has one account in a currency. */
  predicate Schema(s: State) {
    && (forall id | id in s.tables.accounts :: s.tables.accounts[id].owner in s.users)
    && (forall i, j | i in s.tables.accounts && j in s.tables.accounts && i != j ::
          s.tables.accounts[i].owner != s.tables.accounts[j].owner
          || s.tables.accounts[i].currency != s.tables.accounts[j].currency)
  }

  /** No transfer made yet, arbitrary accounts; `TransferTx` may have been called directly any number
      of times, with arguments that no handler has checked. */
  predicate Start(s: State) {
    && (forall p | 0 <= p < |s.requests| :: AboutToBegin(s.requests[p]))
    && s.log == [] && s.locks == map[]
    && s.tables.transfers == [] && s.tables.entries == []
    && Schema(s)
    && forall id | id in s.tables.accounts ::
         0 <= id < s.nextAccount && s.tables.accounts[id].id == id && IsInt64(s.tables.accounts[id].balance)
  }

  /** The same without direct calls: every request is going to come through the handler. */
  predicate Initial(s: State) {
    Start(s) && s.requests == []
  }

  lemma {:induction false} ExecAppend(s: State, es: seq<Event>, fs: seq<Event>)
    ensures Exec(s, es + fs) == Exec(Exec(s, es), fs)
  {
    if |fs| == 0 {
      assert es + fs == es;
    } else {
      ExecAppend(s, es, fs[..|fs| - 1]);
      assert (es + fs)[..|es + fs| - 1] == es + fs[..|fs| - 1];
    }
  }
}
