/** What every step of the transfer protocol keeps. */
module TransferInvariant {
  import opened Wrappers
  import opened Ledger
  import opened Transfers

  /** The request has passed all checks of the handler. */
  predicate Admitted(stage: Stage) {
    !stage.CheckFrom? && !stage.CheckTo? && (stage.Done? ==> stage.status == OK)
  }

  /** From BEGIN to the end of the transaction, or committed. */
  predicate Started(stage: Stage) {
    Admitted(stage) && !stage.BeginTx?
  }

  /** Its insert has passed the foreign keys. */
  predicate Inserted(stage: Stage) {
    || stage.InsertFromEntry? || stage.InsertToEntry? || stage.FirstUpdate? || stage.SecondUpdate?
    || stage.Commit? || stage == Done(OK)
  }

  predicate HasTransfer(r: Request) {
    && r.result.transfer.Some?
    && r.result.transfer.value == Transfer(r.result.transfer.value.id, r.req.fromId, r.req.toId, r.req.amount)
    && r.writes.transfers == [r.result.transfer.value]
  }

  predicate HasFromEntry(r: Request) {
    && r.result.fromEntry.Some?
    && r.result.fromEntry.value == Entry(r.result.fromEntry.value.id, r.req.fromId, Negate(r.req.amount))
  }

  predicate HasToEntry(r: Request) {
    && r.result.toEntry.Some?
    && r.result.toEntry.value == Entry(r.result.toEntry.value.id, r.req.toId, r.req.amount)
  }

  predicate HasInserts(r: Request) {
    && HasTransfer(r) && HasFromEntry(r) && HasToEntry(r)
    && r.writes.entries == [r.result.fromEntry.value, r.result.toEntry.value]
  }

  /** The row versions that a transfer is going to install, given the committed rows. */
  function FinalRows(accounts: map<int, Account>, req: TransferRequest): map<int, Account>
    requires req.fromId in accounts && req.toId in accounts
  {
    if req.fromId == req.toId then map[req.fromId := accounts[req.fromId]]
    else map[req.fromId := Credit(accounts[req.fromId], Negate(req.amount)),
             req.toId := Credit(accounts[req.toId], req.amount)]
  }

  /** The private part of a transaction, stage by stage, in terms of the committed rows. */
  predicate Progress(accounts: map<int, Account>, r: Request)
    requires Inserted(r.stage) ==> r.req.fromId in accounts && r.req.toId in accounts
  {
    match r.stage
    case CheckFrom | CheckTo | BeginTx | InsertTransfer =>
      !r.aborted && r.writes == NO_WRITES && r.result == NO_RESULT
    case InsertFromEntry =>
      && !r.aborted && HasTransfer(r) && NoRowYet(r)
      && r.writes.entries == []
    case InsertToEntry =>
      && !r.aborted && HasTransfer(r) && HasFromEntry(r) && NoRowYet(r)
      && r.writes.entries == [r.result.fromEntry.value]
    case FirstUpdate =>
      !r.aborted && HasInserts(r) && NoRowYet(r)
    case SecondUpdate =>
      var u := FirstUpdateOf(r.req);
      var row := Credit(accounts[u.id], u.delta);
      && !r.aborted && HasInserts(r)
      && r.writes.rows == map[u.id := row]
      && (if u.fillsFrom then r.result.fromAccount else r.result.toAccount) == Some(row)
      && (if u.fillsFrom then r.result.toAccount else r.result.fromAccount) == None
    case Commit =>
      if r.aborted then
        && r.writes.rows.Keys <= {FirstUpdateOf(r.req).id}
        && (r.result.fromAccount == None || r.result.toAccount == None)
      else
        && HasInserts(r)
        && r.writes.rows == FinalRows(accounts, r.req)
        && r.result == SerialResult(accounts, r.req, IdsOf(r.result))
        && IsInt64(accounts[r.req.toId].balance + r.req.amount)
        && (r.req.fromId == r.req.toId ==> r.req.amount != MIN_INT64)
    case Rollback => r.aborted && r.writes.rows == map[]
    case Done(_) => r.writes == NO_WRITES
  }

  predicate NoRowYet(r: Request) {
    r.writes.rows == map[] && r.result.fromAccount == None == r.result.toAccount
  }

  predicate Coherent(accounts: map<int, Account>, r: Request) {
    && (Inserted(r.stage) ==> r.req.fromId in accounts && r.req.toId in accounts)
    && (forall a | a in r.writes.rows :: IsInt64(r.writes.rows[a].balance))
    && Progress(accounts, r)
  }

  predicate RequestsCoherent(s: State) {
    forall p | 0 <= p < |s.requests| :: Coherent(s.tables.accounts, s.requests[p])
  }

  /** A row is locked exactly by the transaction that has a new version of it. */
  predicate LocksMatchWrites(s: State) {
    && (forall a | a in s.locks :: s.locks[a] < |s.requests| && a in s.requests[s.locks[a]].writes.rows)
    && (forall p, a | 0 <= p < |s.requests| && a in s.requests[p].writes.rows :: a in s.locks && s.locks[a] == p)
  }

  predicate AccountsWellFormed(s: State) {
    forall id | id in s.tables.accounts ::
      0 <= id < s.nextAccount && s.tables.accounts[id].id == id && IsInt64(s.tables.accounts[id].balance)
  }

  predicate Inv(s: State) {
    AccountsWellFormed(s) && LocksMatchWrites(s) && RequestsCoherent(s)
  }

  /** Accounts only grow; owner and currency of a row never change. */
  predicate Extends(old_: map<int, Account>, new_: map<int, Account>) {
    forall id | id in old_ ::
      id in new_ && new_[id].owner == old_[id].owner && new_[id].currency == old_[id].currency
  }

  /* ---- Frame: what one request keeps when another one moves ---- */

  lemma CoherentFrame(t: map<int, Account>, t': map<int, Account>, r: Request)
    requires Coherent(t, r) && Extends(t, t')
    requires forall id | id in r.writes.rows && id in t :: t'[id] == t[id]
    ensures Coherent(t', r)
  {
  }

  /** The step of one request that leaves the committed tables alone and takes at most lock `u`. */
  lemma PrivateStep(s: State, s': State, pid: nat)
    requires Inv(s) && pid < |s.requests| == |s'.requests|
    requires s'.tables == s.tables && s'.nextAccount == s.nextAccount
    requires forall p | 0 <= p < |s.requests| && p != pid :: s'.requests[p] == s.requests[p]
    requires Coherent(s'.tables.accounts, s'.requests[pid])
    requires LocksMatchWrites(s')
    ensures Inv(s')
  {
  }

  lemma LockKeepsMatch(s: State, s': State, pid: nat, a: int)
    requires LocksMatchWrites(s) && pid < |s.requests| == |s'.requests|
    requires a in s.locks ==> s.locks[a] == pid
    requires s'.locks == s.locks[a := pid]
    requires s'.requests[pid].writes.rows.Keys == s.requests[pid].writes.rows.Keys + {a}
    requires forall p | 0 <= p < |s.requests| && p != pid :: s'.requests[p] == s.requests[p]
    ensures LocksMatchWrites(s')
  {
  }

  lemma FirstUpdateCoherent(s: State, pid: nat)
    requires AccountsWellFormed(s) && pid < |s.requests| && Coherent(s.tables.accounts, s.requests[pid])
    requires s.requests[pid].stage.FirstUpdate?
    ensures Coherent(s.tables.accounts, ExecUpdate(s, pid).requests[pid])
  {
  }

  /** From an account to itself the debit undoes the credit. */
  lemma SelfUpdateCoherent(s: State, pid: nat)
    requires AccountsWellFormed(s) && pid < |s.requests| && Coherent(s.tables.accounts, s.requests[pid])
    requires s.requests[pid].stage.SecondUpdate? && s.requests[pid].req.fromId == s.requests[pid].req.toId
    ensures Coherent(s.tables.accounts, ExecUpdate(s, pid).requests[pid])
  {
  }

  lemma DistinctUpdateCoherent(s: State, pid: nat)
    requires AccountsWellFormed(s) && pid < |s.requests| && Coherent(s.tables.accounts, s.requests[pid])
    requires s.requests[pid].stage.SecondUpdate? && s.requests[pid].req.fromId != s.requests[pid].req.toId
    ensures Coherent(s.tables.accounts, ExecUpdate(s, pid).requests[pid])
  {
    hide HasTransfer;
    var t := s.tables.accounts;
    var r := s.requests[pid];
    var r' := ExecUpdate(s, pid).requests[pid];
    var u := SecondUpdateOf(r.req);
    assert u.id !in r.writes.rows;
    if IsInt64(t[u.id].balance + u.delta) {
      SameInserts(r, r');
      assert r'.writes.rows == FinalRows(t, r.req);
      forall a | a in r'.writes.rows
        ensures IsInt64(r'.writes.rows[a].balance)
      {
        assert a == u.id || a in r.writes.rows;
      }
      assert r.req.toId in r'.writes.rows;
      TransferOf(r');
      assert r'.result == SerialResult(t, r.req, IdsOf(r'.result));
    } else {
      assert r'.stage.Commit? && r'.aborted;
    }
  }

  lemma SameInserts(r: Request, r': Request)
    requires r'.req == r.req && r'.result.transfer == r.result.transfer && r'.writes.transfers == r.writes.transfers
    ensures HasTransfer(r) == HasTransfer(r')
  {
  }

  lemma TransferOf(r: Request)
    requires HasTransfer(r)
    ensures r.result.transfer == Some(Transfer(IdsOf(r.result).transfer, r.req.fromId, r.req.toId, r.req.amount))
  {
  }

  lemma UpdateKeepsInv(s: State, pid: nat)
    requires Inv(s) && Unfinished(s, pid) && !Blocked(s, pid) && Updating(s.requests[pid])
    ensures Inv(ExecUpdate(s, pid))
  {
    hide Coherent;
    var s' := ExecUpdate(s, pid);
    var r := s.requests[pid];
    var u := Pending(r);
    if r.stage.FirstUpdate? {
      FirstUpdateCoherent(s, pid);
    } else if r.req.fromId == r.req.toId {
      SelfUpdateCoherent(s, pid);
    } else {
      DistinctUpdateCoherent(s, pid);
    }
    if AddBalance(s.tables.accounts, r.writes.rows, u.id, u.delta).Row? {
      LockKeepsMatch(s, s', pid, u.id);
    }
    PrivateStep(s, s', pid);
  }

  lemma DiscardCoherent(s: State, pid: nat)
    requires Unfinished(s, pid) && Coherent(s.tables.accounts, s.requests[pid])
    ensures Coherent(s.tables.accounts, Discard(s, pid).requests[pid])
  {
  }

  lemma DiscardKeepsInv(s: State, pid: nat)
    requires Inv(s) && Unfinished(s, pid)
    ensures Inv(Discard(s, pid))
  {
    hide Coherent;
    DiscardCoherent(s, pid);
    PrivateStep(s, Discard(s, pid), pid);
  }

  lemma InstallCoherent(s: State, pid: nat)
    requires AccountsWellFormed(s) && pid < |s.requests| && Coherent(s.tables.accounts, s.requests[pid])
    requires s.requests[pid].stage.Commit? && !s.requests[pid].aborted
    ensures Extends(s.tables.accounts, Install(s, pid).tables.accounts)
    ensures AccountsWellFormed(Install(s, pid))
    ensures Coherent(Install(s, pid).tables.accounts, Install(s, pid).requests[pid])
  {
    var r := s.requests[pid];
    assert r.writes.rows == FinalRows(s.tables.accounts, r.req);
  }

  /** One other request: the rows it has written it has locked, so they are not installed over. */
  lemma InstallKeepsOther(s: State, pid: nat, p: nat)
    requires LocksMatchWrites(s) && pid < |s.requests| && p < |s.requests| && p != pid
    requires Coherent(s.tables.accounts, s.requests[p])
    requires Extends(s.tables.accounts, Install(s, pid).tables.accounts)
    ensures Coherent(Install(s, pid).tables.accounts, s.requests[p])
  {
    hide Coherent;
    var t, t' := s.tables.accounts, Install(s, pid).tables.accounts;
    forall id | id in s.requests[p].writes.rows && id in t
      ensures t'[id] == t[id]
    {
      assert s.locks[id] == p;
      assert id !in s.requests[pid].writes.rows;
    }
    CoherentFrame(t, t', s.requests[p]);
  }

  lemma InstallKeepsLocks(s: State, pid: nat)
    requires LocksMatchWrites(s) && pid < |s.requests|
    ensures LocksMatchWrites(Install(s, pid))
  {
  }

  /** Installing the writes of one transaction disturbs no other one: they are on rows it holds. */
  lemma InstallKeepsInv(s: State, pid: nat)
    requires Inv(s) && Unfinished(s, pid) && s.requests[pid].stage.Commit? && !s.requests[pid].aborted
    ensures Inv(Install(s, pid))
  {
    hide Coherent;
    hide LocksMatchWrites;
    hide AccountsWellFormed;
    InstallCoherent(s, pid);
    InstallKeepsLocks(s, pid);
    var s' := Install(s, pid);
    forall p | 0 <= p < |s'.requests|
      ensures Coherent(s'.tables.accounts, s'.requests[p])
    {
      if p != pid {
        InstallKeepsOther(s, pid, p);
      }
    }
  }

  lemma InsertCoherent(s: State, pid: nat)
    requires Unfinished(s, pid) && Coherent(s.tables.accounts, s.requests[pid])
    requires var st := s.requests[pid].stage; st.InsertTransfer? || st.InsertFromEntry? || st.InsertToEntry?
    ensures Coherent(s.tables.accounts, ExecStep(s, pid).requests[pid])
    ensures s.requests[pid].writes.rows == map[] == ExecStep(s, pid).requests[pid].writes.rows
  {
  }

  lemma InsertKeepsInv(s: State, pid: nat)
    requires Inv(s) && Unfinished(s, pid)
    requires var st := s.requests[pid].stage; st.InsertTransfer? || st.InsertFromEntry? || st.InsertToEntry?
    ensures Inv(ExecStep(s, pid))
  {
    hide Coherent;
    InsertCoherent(s, pid);
    PrivateStep(s, ExecStep(s, pid), pid);
  }

  lemma CheckCoherent(s: State, pid: nat)
    requires pid < |s.requests| && Coherent(s.tables.accounts, s.requests[pid])
    requires var st := s.requests[pid].stage; st.CheckFrom? || st.CheckTo? || st.BeginTx?
    ensures Coherent(s.tables.accounts, ExecStep(s, pid).requests[pid])
    ensures ExecStep(s, pid).requests[pid].writes == s.requests[pid].writes
  {
  }

  lemma CheckKeepsInv(s: State, pid: nat)
    requires Inv(s) && Unfinished(s, pid)
    requires var st := s.requests[pid].stage; st.CheckFrom? || st.CheckTo? || st.BeginTx?
    ensures Inv(ExecStep(s, pid))
  {
    hide Coherent;
    CheckCoherent(s, pid);
    PrivateStep(s, ExecStep(s, pid), pid);
  }

  lemma StepKeepsInv(s: State, pid: nat)
    requires Inv(s) && Enabled(s, Step(pid))
    ensures Inv(ExecStep(s, pid))
  {
    hide Inv;
    match s.requests[pid].stage
    case CheckFrom | CheckTo | BeginTx => CheckKeepsInv(s, pid);
    case InsertTransfer | InsertFromEntry | InsertToEntry => InsertKeepsInv(s, pid);
    case FirstUpdate | SecondUpdate => UpdateKeepsInv(s, pid);
    case Commit =>
      if s.requests[pid].aborted { DiscardKeepsInv(s, pid); } else { InstallKeepsInv(s, pid); }
    case Rollback => DiscardKeepsInv(s, pid);
  }

  lemma FailCoherent(s: State, pid: nat)
    requires Unfinished(s, pid) && Coherent(s.tables.accounts, s.requests[pid])
    requires !s.requests[pid].stage.Commit? && !s.requests[pid].stage.Rollback?
    ensures Coherent(s.tables.accounts, ExecFail(s, pid).requests[pid])
  {
    hide HasTransfer;
    hide HasInserts;
    hide FinalRows;
    hide SerialResult;
  }

  lemma FailKeepsInv(s: State, pid: nat)
    requires Inv(s) && Unfinished(s, pid)
    ensures Inv(ExecFail(s, pid))
  {
    hide Coherent;
    if s.requests[pid].stage.Commit? || s.requests[pid].stage.Rollback? {
      DiscardKeepsInv(s, pid);
    } else {
      FailCoherent(s, pid);
      PrivateStep(s, ExecFail(s, pid), pid);
    }
  }

  lemma OpenKeepsInv(s: State, owner: string, currency: string, fault: bool)
    requires Inv(s)
    ensures Inv(ExecOpenAccount(s, owner, currency, fault))
  {
    hide Coherent;
    var s' := ExecOpenAccount(s, owner, currency, fault);
    forall p | 0 <= p < |s.requests|
      ensures Coherent(s'.tables.accounts, s'.requests[p])
    {
      CoherentFrame(s.tables.accounts, s'.tables.accounts, s.requests[p]);
    }
  }

  lemma ArriveKeepsInv(s: State, user: string, req: TransferRequest)
    requires Inv(s)
    ensures Inv(ExecArrive(s, user, req))
  {
    assert Coherent(s.tables.accounts, ExecArrive(s, user, req).requests[|s.requests|]);
    hide Coherent;
  }

  lemma ApplyKeepsInv(s: State, e: Event)
    requires Inv(s)
    ensures Inv(Apply(s, e))
  {
    if Enabled(s, e) {
      match e
      case Arrive(user, req) => ArriveKeepsInv(s, user, req);
      case OpenAccount(owner, currency, fault) => OpenKeepsInv(s, owner, currency, fault);
      case Step(pid) => StepKeepsInv(s, pid);
      case Fail(pid) => FailKeepsInv(s, pid);
    }
  }

  lemma {:induction false} ExecKeepsInv(s: State, events: seq<Event>)
    requires Inv(s)
    ensures Inv(Exec(s, events))
  {
    if |events| == 0 {
    } else {
      ExecKeepsInv(s, events[..|events| - 1]);
      ApplyKeepsInv(Exec(s, events[..|events| - 1]), events[|events| - 1]);
    }
  }

  lemma StartInv(s: State)
    requires Start(s)
    ensures Inv(s)
  {
  }

  /** No event removes an account or changes its owner or currency. */
  lemma AccountsExtend(s: State, e: Event)
    requires Inv(s)
    ensures Extends(s.tables.accounts, Apply(s, e).tables.accounts)
  {
    hide RequestsCoherent;
    if e.Step? && Enabled(s, e) && s.requests[e.pid].stage.Commit? {
      if !s.requests[e.pid].aborted {
        CoherentAt(s, e.pid);
        InstallCoherent(s, e.pid);
        hide Coherent;
      }
    }
  }

  lemma CoherentAt(s: State, pid: nat)
    requires Inv(s) && pid < |s.requests|
    ensures Coherent(s.tables.accounts, s.requests[pid])
  {
    hide Coherent;
  }

  /** Only `createAccount` adds a row. */
  lemma AccountIdsKept(s: State, e: Event)
    requires Inv(s) && !e.OpenAccount?
    ensures Apply(s, e).tables.accounts.Keys == s.tables.accounts.Keys && Apply(s, e).users == s.users
  {
    hide RequestsCoherent;
    if e.Step? && Enabled(s, e) && s.requests[e.pid].stage.Commit? && !s.requests[e.pid].aborted {
      CoherentAt(s, e.pid);
      hide Coherent;
      CommittedRows(s, e.pid);
    }
  }

  lemma CommittedRows(s: State, pid: nat)
    requires pid < |s.requests| && Coherent(s.tables.accounts, s.requests[pid])
    requires s.requests[pid].stage.Commit? && !s.requests[pid].aborted
    ensures s.requests[pid].writes.rows.Keys <= s.tables.accounts.Keys
  {
  }

  /** Every currency is one that `createAccount` accepts. */
  predicate SupportedCurrencies(accounts: map<int, Account>) {
    forall id | id in accounts :: IsSupportedCurrency(accounts[id].currency)
  }

  lemma ApplyKeepsSchema(s: State, e: Event)
    requires Inv(s) && Schema(s)
    ensures Schema(Apply(s, e))
    ensures SupportedCurrencies(s.tables.accounts) ==> SupportedCurrencies(Apply(s, e).tables.accounts)
  {
    if !e.OpenAccount? {
      AccountsExtend(s, e);
      AccountIdsKept(s, e);
      hide Apply;
      hide Inv;
    } else {
      hide Inv;
    }
  }

  lemma {:induction false} ExecKeepsSchema(s: State, events: seq<Event>)
    requires Inv(s) && Schema(s)
    ensures Schema(Exec(s, events))
    ensures SupportedCurrencies(s.tables.accounts) ==> SupportedCurrencies(Exec(s, events).tables.accounts)
  {
    if |events| == 0 {
    } else {
      hide Inv;
      hide Schema;
      hide SupportedCurrencies;
      hide Apply;
      ExecKeepsSchema(s, events[..|events| - 1]);
      ExecKeepsInv(s, events[..|events| - 1]);
      ApplyKeepsSchema(Exec(s, events[..|events| - 1]), events[|events| - 1]);
    }
  }

  /* ---- What the handler adds to it ---- */

  predicate FromChecked(accounts: map<int, Account>, r: Request) {
    && r.req.fromId in accounts
    && accounts[r.req.fromId].currency == r.req.currency
    && accounts[r.req.fromId].owner == r.user
  }

  /** The facts that `createTransfer` establishes before it calls `TransferTx`. */
  predicate Checked(accounts: map<int, Account>, r: Request) {
    && FromChecked(accounts, r)
    && r.req.toId in accounts
    && accounts[r.req.toId].currency == r.req.currency
  }

  predicate Served(accounts: map<int, Account>, r: Request) {
    && (!r.stage.Done? || r.stage.status == OK ==> Binds(r.req))
    && (r.stage.CheckTo? ==> FromChecked(accounts, r))
    && (Admitted(r.stage) ==> Checked(accounts, r))
  }

  predicate AllServed(s: State) {
    forall p | 0 <= p < |s.requests| :: Served(s.tables.accounts, s.requests[p])
  }

  lemma OnlyItsOwnRequest(s: State, pid: nat)
    requires Unfinished(s, pid)
    ensures var s' := ExecStep(s, pid);
            pid < |s'.requests| && s'.requests == s.requests[pid := s'.requests[pid]]
    ensures var s' := ExecFail(s, pid);
            pid < |s'.requests| && s'.requests == s.requests[pid := s'.requests[pid]]
  {
  }

  /** From the first insert on. */
  lemma StageAfterStatement(s: State, pid: nat)
    requires Unfinished(s, pid) && Started(s.requests[pid].stage)
    ensures var r, r' := s.requests[pid], ExecStep(s, pid).requests[pid];
            r'.user == r.user && r'.req == r.req && !r'.stage.CheckTo?
  {
  }

  /** A request changes neither its caller nor its arguments, and passes the checks one by one. */
  lemma StageAfterStep(s: State, pid: nat)
    requires Unfinished(s, pid)
    ensures var r, r' := s.requests[pid], ExecStep(s, pid).requests[pid];
            && r'.user == r.user && r'.req == r.req
            && (Admitted(r'.stage) && !Admitted(r.stage) ==>
                  r.stage.CheckTo? && ValidAccount(s.tables.accounts, r.req.toId, r.req.currency) == None)
            && (r'.stage.CheckTo? ==>
                  && ValidAccount(s.tables.accounts, r.req.fromId, r.req.currency) == None
                  && s.tables.accounts[r.req.fromId].owner == r.user)
  {
    if Started(s.requests[pid].stage) {
      StageAfterStatement(s, pid);
      hide ExecStep;
    }
  }

  lemma StageAfterFail(s: State, pid: nat)
    requires Unfinished(s, pid)
    ensures var r, r' := s.requests[pid], ExecFail(s, pid).requests[pid];
            && r'.user == r.user && r'.req == r.req && !r'.stage.CheckTo?
            && (Admitted(r'.stage) ==> Admitted(r.stage))
  {
  }

  lemma ServedStep(s: State, e: Event)
    requires (e.Step? || e.Fail?) && Enabled(s, e) && Served(s.tables.accounts, s.requests[e.pid])
    ensures e.pid < |Apply(s, e).requests| && Served(s.tables.accounts, Apply(s, e).requests[e.pid])
    ensures Apply(s, e).requests == s.requests[e.pid := Apply(s, e).requests[e.pid]]
  {
    OnlyItsOwnRequest(s, e.pid);
    StageAfterStep(s, e.pid);
    StageAfterFail(s, e.pid);
    hide ExecStep;
    hide ExecFail;
  }

  lemma ApplyKeepsServed(s: State, e: Event)
    requires Inv(s) && AllServed(s)
    ensures AllServed(Apply(s, e))
  {
    AccountsExtend(s, e);
    if (e.Step? || e.Fail?) && Enabled(s, e) {
      ServedStep(s, e);
    }
    hide Inv;
    hide ExecStep;
    hide ExecFail;
  }

  lemma {:induction false} ExecKeepsServed(s: State, events: seq<Event>)
    requires Inv(s) && AllServed(s)
    ensures AllServed(Exec(s, events))
  {
    if |events| == 0 {
    } else {
      hide Inv;
      hide AllServed;
      ExecKeepsServed(s, events[..|events| - 1]);
      ExecKeepsInv(s, events[..|events| - 1]);
      ApplyKeepsServed(Exec(s, events[..|events| - 1]), events[|events| - 1]);
    }
  }

  /** Both invariants, in every state that handlers alone can reach. */
  lemma HandlersKeepInv(s0: State, events: seq<Event>)
    requires Initial(s0)
    ensures Inv(Exec(s0, events)) && AllServed(Exec(s0, events))
  {
    StartInv(s0);
    ExecKeepsInv(s0, events);
    ExecKeepsServed(s0, events);
  }
}
