/** Bookkeeping laws. They are proved of serial runs and hold of every interleaving because every
    interleaving is explained by a serial run. */
module LedgerLaws {
  import opened Ledger
  import opened Transfers
  import opened TransferInvariant
  import opened Serializability

  /** What an account held before the first transfer; accounts opened later start at 0. */
  function Opening(accounts: map<int, Account>, id: int): int {
    if id in accounts then accounts[id].balance else 0
  }

  predicate NothingMoved(t: Tables) {
    t.transfers == [] && t.entries == [] && forall id | id in t.accounts :: t.accounts[id].id == id
  }

  /** Reconciliation of one account in a serial run. */
  lemma {:induction false} SerialReconciles(t: Tables, log: seq<Change>, a: int)
    requires NothingMoved(t) && ValidLog(t, log)
    ensures var u := Replay(t, log);
            if a in u.accounts then u.accounts[a].balance == Opening(t.accounts, a) + SumEntries(u.entries, a)
            else a !in t.accounts && SumEntries(u.entries, a) == 0
  {
    if |log| == 0 {
    } else {
      var before, c := log[..|log| - 1], log[|log| - 1];
      ValidPrefix(t, log);
      SerialReconciles(t, before, a);
      if c.Moved? {
        SumsAppendPair(Replay(t, before).entries, Entry(c.ids.fromEntry, c.req.fromId, Negate(c.req.amount)),
                       Entry(c.ids.toEntry, c.req.toId, c.req.amount), a);
      }
    }
  }

  /** The entries are, as a bag, one debit and one credit for each transfer row. */
  predicate DoubleEntry(t: Tables) {
    Postings(t.entries) == DoubleEntries(t.transfers)
  }

  /** Transfer rows with the one amount that negation does not change. */
  function LeastAmounts(transfers: seq<Transfer>): nat {
    if |transfers| == 0 then 0
    else
      LeastAmounts(transfers[..|transfers| - 1])
      + (if transfers[|transfers| - 1].amount == MIN_INT64 then 1 else 0)
  }

  /** Each of them puts the same amount on both sides; all other transfers cancel out. */
  predicate SumIsLeastAmounts(t: Tables) {
    SumAllEntries(t.entries) == 2 * MIN_INT64 * LeastAmounts(t.transfers)
  }

  predicate NoLeastAmount(transfers: seq<Transfer>) {
    forall i | 0 <= i < |transfers| :: transfers[i].amount != MIN_INT64
  }

  lemma {:induction false} LeastAmountsNone(transfers: seq<Transfer>)
    ensures LeastAmounts(transfers) == 0 <==> NoLeastAmount(transfers)
  {
    if |transfers| == 0 {
    } else {
      var n := |transfers| - 1;
      LeastAmountsNone(transfers[..n]);
      assert NoLeastAmount(transfers) <==> NoLeastAmount(transfers[..n]) && transfers[n].amount != MIN_INT64;
    }
  }

  lemma PerformKeepsDoubleEntry(t: Tables, c: Change)
    requires DoubleEntry(t) && SumIsLeastAmounts(t)
    ensures DoubleEntry(Perform(t, c)) && SumIsLeastAmounts(Perform(t, c))
  {
    hide Postings;
    hide DoubleEntries;
    hide SumAllEntries;
    if c.Moved? {
      var e := Entry(c.ids.fromEntry, c.req.fromId, Negate(c.req.amount));
      var f := Entry(c.ids.toEntry, c.req.toId, c.req.amount);
      var row := Transfer(c.ids.transfer, c.req.fromId, c.req.toId, c.req.amount);
      PostingsAppendPair(t.entries, e, f);
      SumsAppendPair(t.entries, e, f, 0);
      DoubleEntriesAppend(t.transfers, row);
      assert (t.transfers + [row])[..|t.transfers|] == t.transfers;
    }
  }

  lemma {:induction false} SerialDoubleEntry(t: Tables, log: seq<Change>)
    requires NothingMoved(t)
    ensures DoubleEntry(Replay(t, log)) && SumIsLeastAmounts(Replay(t, log))
  {
    if |log| == 0 {
    } else {
      SerialDoubleEntry(t, log[..|log| - 1]);
      hide DoubleEntry;
      hide SumIsLeastAmounts;
      PerformKeepsDoubleEntry(Replay(t, log[..|log| - 1]), log[|log| - 1]);
    }
  }

  lemma {:induction false} FairAmounts(t: Tables, log: seq<Change>)
    requires NothingMoved(t) && FairLog(t, log)
    ensures NoLeastAmount(Replay(t, log).transfers)
  {
    if |log| == 0 {
    } else {
      FairPrefix(t, log);
      FairAmounts(t, log[..|log| - 1]);
    }
  }

  /** The bag law; and the entries sum to zero exactly when no transfer moved the least int64. */
  predicate BooksBalance(t: Tables) {
    && DoubleEntry(t)
    && (SumAllEntries(t.entries) == 0 <==> NoLeastAmount(t.transfers))
  }

  lemma LogBooksBalance(t: Tables, log: seq<Change>)
    requires NothingMoved(t)
    ensures BooksBalance(Replay(t, log))
    ensures FairLog(t, log) ==> SumAllEntries(Replay(t, log).entries) == 0
  {
    hide FairLog;
    hide Replay;
    SerialDoubleEntry(t, log);
    SumIsZeroIff(Replay(t, log));
    if FairLog(t, log) {
      FairAmounts(t, log);
    }
    hide DoubleEntry;
    hide NoLeastAmount;
    hide SumIsLeastAmounts;
  }

  lemma SumIsZeroIff(t: Tables)
    requires SumIsLeastAmounts(t)
    ensures SumAllEntries(t.entries) == 0 <==> NoLeastAmount(t.transfers)
  {
    LeastAmountsNone(t.transfers);
    hide SumAllEntries;
    hide NoLeastAmount;
    hide LeastAmounts;
  }

  /** Ledger reconciliation: in every reachable state every committed balance is the opening
      balance plus the committed entries of the account. Double entry: the entries are, as a bag,
      one debit and one credit for each transfer row. They sum to zero if and only if no row moves
      the least int64, and so always when every transfer comes through the handler. */
  lemma LedgerReconciles(s0: State, events: seq<Event>)
    requires Start(s0)
    ensures var t := Exec(s0, events).tables;
            && (forall a | a in t.accounts ::
                  t.accounts[a].balance == Opening(s0.tables.accounts, a) + SumEntries(t.entries, a))
            && BooksBalance(t)
            && (Initial(s0) ==> SumAllEntries(t.entries) == 0)
  {
    Serializable(s0, events);
    var s := Exec(s0, events);
    LogBooksBalance(s0.tables, s.log);
    if Initial(s0) {
      HandlersAreFair(s0, events);
    }
    forall a | a in s.tables.accounts
      ensures s.tables.accounts[a].balance == Opening(s0.tables.accounts, a) + SumEntries(s.tables.entries, a)
    {
      SerialReconciles(s0.tables, s.log, a);
    }
    hide Exec;
    hide Replay;
    hide BooksBalance;
    hide ValidLog;
    hide FairLog;
  }

  /** What the transaction of `pid` itself would read. */
  function OwnView(s: State, pid: nat): Tables
    requires pid < |s.requests|
  {
    var w := s.requests[pid].writes;
    Tables(s.tables.accounts + w.rows, s.tables.transfers + w.transfers, s.tables.entries + w.entries)
  }

  /** Inside an open transaction the books balance again once its last update is done. */
  lemma OwnViewReconciles(s0: State, events: seq<Event>, pid: nat, account: int)
    requires Start(s0)
    requires var s := Exec(s0, events);
             pid < |s.requests| && s.requests[pid].stage.Commit? && !s.requests[pid].aborted
    ensures var view := OwnView(Exec(s0, events), pid);
            && BooksBalance(view)
            && (Initial(s0) ==> SumAllEntries(view.entries) == 0)
            && (account in view.accounts ==>
                  view.accounts[account].balance
                  == Opening(s0.tables.accounts, account) + SumEntries(view.entries, account))
  {
    var next := events + [Step(pid)];
    assert next[..|next| - 1] == events;
    CommitShowsOwnView(Exec(s0, events), pid);
    LedgerReconciles(s0, next);
    hide Apply;
    hide Initial;
  }

  /** What the transaction sees before its commit, everybody sees after it. */
  lemma CommitShowsOwnView(s: State, pid: nat)
    requires pid < |s.requests| && s.requests[pid].stage.Commit? && !s.requests[pid].aborted
    ensures Apply(s, Step(pid)).tables == OwnView(s, pid)
  {
  }

  /* ---- Conservation per currency ---- */

  /** What one order adds to the total of one currency. */
  function Shift(accounts: map<int, Account>, o: Order, currency: string): int {
    if o.fromId == o.toId then 0
    else
      (if IsIn(accounts, o.fromId, currency) then Negate(o.amount) else 0)
      + (if IsIn(accounts, o.toId, currency) then o.amount else 0)
  }

  predicate IsIn(accounts: map<int, Account>, id: int, currency: string) {
    id in accounts && accounts[id].currency == currency
  }

  function SumShifts(accounts: map<int, Account>, orders: seq<Order>, currency: string): int {
    if |orders| == 0 then 0
    else
      SumShifts(accounts, orders[..|orders| - 1], currency) + Shift(accounts, orders[|orders| - 1], currency)
  }

  lemma TransferTotal(u: map<int, Account>, req: TransferRequest, currency: string, bound: nat)
    requires 0 <= req.fromId < bound && 0 <= req.toId < bound && req.fromId in u && req.toId in u
    ensures Total(SerialAccounts(u, req), currency, bound)
            == Total(u, currency, bound) + Shift(u, OrderOf(req), currency)
  {
    if req.fromId != req.toId {
      var debited := Credit(u[req.fromId], Negate(req.amount));
      TotalUpdate(u, req.fromId, debited, currency, bound);
      TotalUpdate(u[req.fromId := debited], req.toId, Credit(u[req.toId], req.amount), currency, bound);
    }
  }

  /** Why the handler checks what it checks: a transfer keeps the total of every currency if and
      only if it moves nothing, or moves an amount that can be negated within one currency. */
  lemma ConservesIff(u: map<int, Account>, req: TransferRequest, bound: nat)
    requires 0 <= req.fromId < bound && 0 <= req.toId < bound && req.fromId in u && req.toId in u
    ensures (forall currency :: Total(SerialAccounts(u, req), currency, bound) == Total(u, currency, bound))
            <==> (|| req.fromId == req.toId || req.amount == 0
                  || (req.amount != MIN_INT64 && u[req.fromId].currency == u[req.toId].currency))
  {
    var o := OrderOf(req);
    var paid := u[req.fromId].currency;
    if || req.fromId == req.toId || req.amount == 0
       || (req.amount != MIN_INT64 && u[req.fromId].currency == u[req.toId].currency)
    {
      forall currency
        ensures Total(SerialAccounts(u, req), currency, bound) == Total(u, currency, bound)
      {
        TransferTotal(u, req, currency, bound);
        assert Shift(u, o, currency) == 0;
      }
    } else {
      TransferTotal(u, req, paid, bound);
      assert Shift(u, o, paid) != 0;
      assert Total(SerialAccounts(u, req), paid, bound) != Total(u, paid, bound);
    }
    hide Total;
    hide SerialAccounts;
  }

  lemma SumShiftsAppend(accounts: map<int, Account>, ts: seq<Transfer>, t: Transfer, currency: string)
    ensures SumShifts(accounts, OrdersOf(ts + [t]), currency)
            == SumShifts(accounts, OrdersOf(ts), currency)
               + Shift(accounts, Order(t.fromId, t.toId, t.amount), currency)
  {
    assert (ts + [t])[..|ts|] == ts;
    var orders := OrdersOf(ts + [t]);
    assert orders[..|orders| - 1] == OrdersOf(ts);
  }

  lemma OneMoreTotal(t: Tables, c: Change, final: map<int, Account>, currency: string, bound: nat)
    requires ValidChange(t.accounts, c) && Extends(t.accounts, final)
    requires forall id | id in Perform(t, c).accounts :: 0 <= id < bound
    ensures var u := Perform(t, c);
            Total(u.accounts, currency, bound) - Total(t.accounts, currency, bound)
            == SumShifts(final, OrdersOf(u.transfers), currency) - SumShifts(final, OrdersOf(t.transfers), currency)
  {
    match c
    case Opened(a) =>
      assert a.id in Perform(t, c).accounts;
      TotalUpdate(t.accounts, a.id, a, currency, bound);
    case Moved(_, req, ids) =>
      assert req.fromId in Perform(t, c).accounts && req.toId in Perform(t, c).accounts;
      TransferTotal(t.accounts, req, currency, bound);
      SumShiftsAppend(final, t.transfers, Transfer(ids.transfer, req.fromId, req.toId, req.amount), currency);
      assert Shift(t.accounts, OrderOf(req), currency) == Shift(final, OrderOf(req), currency);
      hide Shift;
      hide Total;
      hide SumShifts;
      hide OrdersOf;
      hide SerialAccounts;
  }

  lemma {:induction false} SerialTotals(t: Tables, log: seq<Change>, final: map<int, Account>,
                                            currency: string, bound: nat)
    requires NothingMoved(t) && ValidLog(t, log)
    requires forall id | id in Replay(t, log).accounts :: 0 <= id < bound
    requires Extends(Replay(t, log).accounts, final)
    ensures Total(Replay(t, log).accounts, currency, bound)
            == Total(t.accounts, currency, bound) + SumShifts(final, OrdersOf(Replay(t, log).transfers), currency)
  {
    if |log| == 0 {
    } else {
      var before, c := log[..|log| - 1], log[|log| - 1];
      var u := Replay(t, before);
      ValidPrefix(t, log);
      PerformExtends(u, c);
      hide ValidLog;
      hide Perform;
      hide ValidChange;
      SerialTotals(t, before, final, currency, bound);
      OneMoreTotal(u, c, final, currency, bound);
    }
  }

  /** The exact law of the totals, whatever is in flight and whatever was called directly: for each
      currency the committed balances add up to what the accounts held at first and what the
      committed transfers have shifted into the currency. */
  lemma CurrencyTotals(s0: State, events: seq<Event>, currency: string)
    requires Start(s0)
    ensures var s := Exec(s0, events);
            && (forall id | id in s.tables.accounts :: 0 <= id < s.nextAccount)
            && Total(s.tables.accounts, currency, s.nextAccount)
               == Total(s0.tables.accounts, currency, s.nextAccount)
                  + SumShifts(s.tables.accounts, OrdersOf(s.tables.transfers), currency)
  {
    var s := Exec(s0, events);
    StartInv(s0);
    ExecKeepsInv(s0, events);
    Serializable(s0, events);
    SerialTotals(s0.tables, s.log, s.tables.accounts, currency, s.nextAccount);
    hide Exec;
    hide Replay;
    hide ValidLog;
    hide RequestsCoherent;
    hide LocksMatchWrites;
  }

  lemma {:induction false} FairShifts(t: Tables, log: seq<Change>, final: map<int, Account>, currency: string)
    requires NothingMoved(t) && ValidLog(t, log) && FairLog(t, log) && Extends(Replay(t, log).accounts, final)
    ensures SumShifts(final, OrdersOf(Replay(t, log).transfers), currency) == 0
  {
    if |log| == 0 {
    } else {
      var before, c := log[..|log| - 1], log[|log| - 1];
      var u := Replay(t, before);
      ValidPrefix(t, log);
      FairPrefix(t, log);
      PerformExtends(u, c);
      FairShifts(t, before, final, currency);
      if c.Moved? {
        SumShiftsAppend(final, u.transfers, Transfer(c.ids.transfer, c.req.fromId, c.req.toId, c.req.amount), currency);
        hide SumShifts;
        hide OrdersOf;
      }
      hide ValidLog;
      hide FairLog;
    }
  }

  /** Through the handler no transfer shifts anything: for each currency the sum of committed balances
      never changes. */
  lemma CurrencyConserved(s0: State, events: seq<Event>, currency: string)
    requires Initial(s0)
    ensures var s := Exec(s0, events);
            && (forall id | id in s.tables.accounts :: 0 <= id < s.nextAccount)
            && Total(s.tables.accounts, currency, s.nextAccount) == Total(s0.tables.accounts, currency, s.nextAccount)
  {
    var s := Exec(s0, events);
    CurrencyTotals(s0, events, currency);
    Serializable(s0, events);
    HandlersAreFair(s0, events);
    FairShifts(s0.tables, s.log, s.tables.accounts, currency);
    hide Exec;
    hide Replay;
    hide ValidLog;
    hide FairLog;
    hide Total;
    hide SumShifts;
  }

  /** The books of a bank whose accounts were all opened by `createAccount` sum to zero. */
  lemma CurrencyTotalZero(s0: State, events: seq<Event>, currency: string)
    requires Initial(s0) && forall id | id in s0.tables.accounts :: s0.tables.accounts[id].balance == 0
    ensures Total(Exec(s0, events).tables.accounts, currency, Exec(s0, events).nextAccount) == 0
  {
    CurrencyConserved(s0, events, currency);
    TotalOfNothing(s0.tables.accounts, currency, 0, Exec(s0, events).nextAccount);
  }

  /* ---- Order independence ---- */

  /** A transfer row without its id. */
  datatype Order = Order(fromId: int, toId: int, amount: int)

  function OrderOf(req: TransferRequest): Order {
    Order(req.fromId, req.toId, req.amount)
  }

  function OrdersOf(transfers: seq<Transfer>): (orders: seq<Order>)
    ensures |orders| == |transfers|
  {
    if |transfers| == 0 then []
    else
      var t := transfers[|transfers| - 1];
      OrdersOf(transfers[..|transfers| - 1]) + [Order(t.fromId, t.toId, t.amount)]
  }

  /** What one order adds to one account. */
  function Delta(o: Order, account: int): int {
    (if o.toId == account then o.amount else 0) + (if o.fromId == account then Negate(o.amount) else 0)
  }

  function SumDeltas(orders: seq<Order>, account: int): int {
    if |orders| == 0 then 0
    else SumDeltas(orders[..|orders| - 1], account) + Delta(orders[|orders| - 1], account)
  }

  lemma {:induction false} SumDeltasWithout(orders: seq<Order>, i: nat, account: int)
    requires i < |orders|
    ensures SumDeltas(orders, account) == SumDeltas(orders[..i] + orders[i + 1..], account) + Delta(orders[i], account)
  {
    var n := |orders| - 1;
    var rest := orders[..i] + orders[i + 1..];
    if i == n {
      assert rest == orders[..n];
    } else {
      SumDeltasWithout(orders[..n], i, account);
      assert rest[..n - 1] == orders[..n][..i] + orders[..n][i + 1..];
      assert rest[n - 1] == orders[n];
    }
  }

  /** Removing one occurrence of the last order of `xs` from both sides. */
  lemma BagWithoutLast(xs: seq<Order>, ys: seq<Order>) returns (i: nat)
    requires multiset(xs) == multiset(ys) && |xs| > 0
    ensures i < |ys| && ys[i] == xs[|xs| - 1]
    ensures multiset(xs[..|xs| - 1]) == multiset(ys[..i] + ys[i + 1..])
  {
    var n := |xs| - 1;
    assert xs == xs[..n] + [xs[n]];
    assert xs[n] in multiset(ys);
    i :| 0 <= i < |ys| && ys[i] == xs[n];
    assert ys == ys[..i] + [ys[i]] + ys[i + 1..];
    assert multiset(xs[..n]) == multiset(xs) - multiset{xs[n]};
    assert multiset(ys[..i] + ys[i + 1..]) == multiset(ys) - multiset{ys[i]};
  }

  /** The sum depends on the bag only, not on the order. */
  lemma {:induction false} SumDeltasOfBag(xs: seq<Order>, ys: seq<Order>, account: int)
    requires multiset(xs) == multiset(ys)
    ensures SumDeltas(xs, account) == SumDeltas(ys, account)
  {
    if |xs| == 0 {
      assert |multiset(ys)| == 0;
    } else {
      var i := BagWithoutLast(xs, ys);
      SumDeltasOfBag(xs[..|xs| - 1], ys[..i] + ys[i + 1..], account);
      SumDeltasWithout(ys, i, account);
    }
  }

  lemma SerialBalance(t: Tables, log: seq<Change>, account: int)
    requires NothingMoved(t) && ValidLog(t, log)
    requires account in Replay(t, log).accounts
    ensures Replay(t, log).accounts[account].balance
            == Opening(t.accounts, account) + SumDeltas(OrdersOf(Replay(t, log).transfers), account)
  {
    SerialReconciles(t, log, account);
    EntriesAreDeltas(t, log, account);
  }

  lemma OrdersAppend(ts: seq<Transfer>, t: Transfer, account: int)
    ensures SumDeltas(OrdersOf(ts + [t]), account)
            == SumDeltas(OrdersOf(ts), account) + Delta(Order(t.fromId, t.toId, t.amount), account)
  {
    assert (ts + [t])[..|ts|] == ts;
    var orders := OrdersOf(ts + [t]);
    assert orders[..|orders| - 1] == OrdersOf(ts);
  }

  lemma {:induction false} EntriesAreDeltas(t: Tables, log: seq<Change>, account: int)
    requires NothingMoved(t)
    ensures SumEntries(Replay(t, log).entries, account) == SumDeltas(OrdersOf(Replay(t, log).transfers), account)
  {
    if |log| == 0 {
    } else {
      var before, c := log[..|log| - 1], log[|log| - 1];
      EntriesAreDeltas(t, before, account);
      var u := Replay(t, before);
      if c.Moved? {
        SumsAppendPair(u.entries, Entry(c.ids.fromEntry, c.req.fromId, Negate(c.req.amount)),
                       Entry(c.ids.toEntry, c.req.toId, c.req.amount), account);
        OrdersAppend(u.transfers, Transfer(c.ids.transfer, c.req.fromId, c.req.toId, c.req.amount), account);
        hide SumEntries;
        hide SumDeltas;
        hide OrdersOf;
      }
    }
  }

  /** Order independence: two runs from the same accounts that commit the same bag of transfers, in
      whatever orders and interleavings, end with the same balances. */
  lemma SameTransfersSameBalances(s0: State, es: seq<Event>, fs: seq<Event>, account: int)
    requires Start(s0)
    requires multiset(OrdersOf(Exec(s0, es).tables.transfers)) == multiset(OrdersOf(Exec(s0, fs).tables.transfers))
    requires account in Exec(s0, es).tables.accounts && account in Exec(s0, fs).tables.accounts
    ensures Exec(s0, es).tables.accounts[account].balance == Exec(s0, fs).tables.accounts[account].balance
  {
    var s, u := Exec(s0, es), Exec(s0, fs);
    Serializable(s0, es);
    Serializable(s0, fs);
    SerialBalance(s0.tables, s.log, account);
    SerialBalance(s0.tables, u.log, account);
    SumDeltasOfBag(OrdersOf(s.tables.transfers), OrdersOf(u.tables.transfers), account);
  }
}
