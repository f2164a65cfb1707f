/** The three ledger tables, 64-bit arithmetic on them, and the reference semantics: what a
    transfer and an account opening do when nothing else is running. */
module Ledger {
  import opened Wrappers

  const MAX_INT64: int := 0x7FFF_FFFF_FFFF_FFFF
  const MIN_INT64: int := -0x8000_0000_0000_0000

  predicate IsInt64(x: int) {
    MIN_INT64 <= x <= MAX_INT64
  }

  /** Go's unary minus on an int64: the least value is its own negation. */
  function Negate(x: int): int {
    if x == MIN_INT64 then MIN_INT64 else -x
  }

  datatype Account = Account(id: int, owner: string, balance: int, currency: string)
  datatype Transfer = Transfer(id: int, fromId: int, toId: int, amount: int)
  datatype Entry = Entry(id: int, accountId: int, amount: int)

  /** Accounts are looked up and updated by key; transfers and entries are only ever appended. */
  datatype Tables = Tables(accounts: map<int, Account>, transfers: seq<Transfer>, entries: seq<Entry>)

  datatype TransferRequest = TransferRequest(fromId: int, toId: int, amount: int, currency: string)

  /** `TransferTxResult`; a field that no statement has assigned yet is `None`. */
  datatype TxResult = TxResult(
    transfer: Option<Transfer>,
    fromEntry: Option<Entry>, toEntry: Option<Entry>,
    fromAccount: Option<Account>, toAccount: Option<Account>)

  const NO_RESULT: TxResult := TxResult(None, None, None, None, None)

  /** Row ids drawn from the three `bigserial` sequences. */
  datatype Ids = Ids(transfer: int, fromEntry: int, toEntry: int)

  /** One committed change of the ledger, in commit order. */
  datatype Change =
    | Opened(account: Account)
    | Moved(pid: nat, req: TransferRequest, ids: Ids)

  function Credit(a: Account, amount: int): Account {
    a.(balance := a.balance + amount)
  }

  /* ---- Reference semantics: one change at a time, with nothing else running ---- */

  function SerialAccounts(accounts: map<int, Account>, req: TransferRequest): map<int, Account> {
    if req.fromId !in accounts || req.toId !in accounts || req.fromId == req.toId then accounts
    else accounts[req.fromId := Credit(accounts[req.fromId], Negate(req.amount))]
                 [req.toId := Credit(accounts[req.toId], req.amount)]
  }

  /** The answer a lone transfer gets. When both ends are the same account the credit comes
      first, so `toAccount` shows the credited row and `fromAccount` the final one. */
  function SerialResult(accounts: map<int, Account>, req: TransferRequest, ids: Ids): TxResult
    requires req.fromId in accounts && req.toId in accounts
  {
    TxResult(
      Some(Transfer(ids.transfer, req.fromId, req.toId, req.amount)),
      Some(Entry(ids.fromEntry, req.fromId, Negate(req.amount))),
      Some(Entry(ids.toEntry, req.toId, req.amount)),
      Some(if req.fromId == req.toId then accounts[req.fromId] else Credit(accounts[req.fromId], Negate(req.amount))),
      Some(Credit(accounts[req.toId], req.amount)))
  }

  function Perform(t: Tables, c: Change): Tables {
    match c
    case Opened(a) => t.(accounts := t.accounts[a.id := a])
    case Moved(_, req, ids) =>
      Tables(
        SerialAccounts(t.accounts, req),
        t.transfers + [Transfer(ids.transfer, req.fromId, req.toId, req.amount)],
        t.entries + [Entry(ids.fromEntry, req.fromId, Negate(req.amount)), Entry(ids.toEntry, req.toId, req.amount)])
  }

  /** The serial run of a log. */
  function Replay(t: Tables, log: seq<Change>): Tables {
    if |log| == 0 then t else Perform(Replay(t, log[..|log| - 1]), log[|log| - 1])
  }

  /* ---- Sums ---- */

  function SumEntries(entries: seq<Entry>, account: int): int {
    if |entries| == 0 then 0
    else
      var e := entries[|entries| - 1];
      SumEntries(entries[..|entries| - 1], account) + (if e.accountId == account then e.amount else 0)
  }

  function SumAllEntries(entries: seq<Entry>): int {
    if |entries| == 0 then 0
    else SumAllEntries(entries[..|entries| - 1]) + entries[|entries| - 1].amount
  }

  /** Money of one currency in the accounts with ids below `bound`. */
  function Total(accounts: map<int, Account>, currency: string, bound: nat): int {
    if bound == 0 then 0
    else Total(accounts, currency, bound - 1) + Holding(accounts, currency, bound - 1)
  }

  function Holding(accounts: map<int, Account>, currency: string, id: int): int {
    if id in accounts && accounts[id].currency == currency then accounts[id].balance else 0
  }

  lemma {:induction false} SumsAppendPair(xs: seq<Entry>, e: Entry, f: Entry, account: int)
    ensures SumEntries(xs + [e, f], account) ==
            SumEntries(xs, account)
            + (if e.accountId == account then e.amount else 0)
            + (if f.accountId == account then f.amount else 0)
    ensures SumAllEntries(xs + [e, f]) == SumAllEntries(xs) + e.amount + f.amount
  {
    var ys := xs + [e, f];
    assert ys[..|ys| - 1] == xs + [e];
    assert (xs + [e])[..|xs|] == xs;
  }

  lemma {:induction false} TotalUpdate(accounts: map<int, Account>, id: int, a: Account, currency: string, bound: nat)
    ensures Total(accounts[id := a], currency, bound) ==
            Total(accounts, currency, bound)
            + (if 0 <= id < bound
               then (if a.currency == currency then a.balance else 0) - Holding(accounts, currency, id)
               else 0)
  {
    if bound == 0 {
    } else {
      TotalUpdate(accounts, id, a, currency, bound - 1);
    }
  }

  lemma {:induction false} TotalOfNothing(accounts: map<int, Account>, currency: string, lo: nat, hi: nat)
    requires lo <= hi
    requires forall id | lo <= id < hi :: id in accounts ==> accounts[id].balance == 0
    ensures Total(accounts, currency, hi) == Total(accounts, currency, lo)
  {
    if lo == hi {
    } else {
      TotalOfNothing(accounts, currency, lo, hi - 1);
    }
  }

  /* ---- The bag of entries that a list of transfer rows stands for ---- */

  /** An entry without its row id. */
  datatype Posting = Posting(accountId: int, amount: int)

  function Postings(entries: seq<Entry>): multiset<Posting> {
    if |entries| == 0 then multiset{}
    else
      var e := entries[|entries| - 1];
      Postings(entries[..|entries| - 1]) + multiset{Posting(e.accountId, e.amount)}
  }

  function DoubleEntries(transfers: seq<Transfer>): multiset<Posting> {
    if |transfers| == 0 then multiset{}
    else
      var t := transfers[|transfers| - 1];
      DoubleEntries(transfers[..|transfers| - 1])
      + multiset{Posting(t.fromId, Negate(t.amount)), Posting(t.toId, t.amount)}
  }

  lemma {:induction false} PostingsAppendPair(xs: seq<Entry>, e: Entry, f: Entry)
    ensures Postings(xs + [e, f]) ==
            Postings(xs) + multiset{Posting(e.accountId, e.amount), Posting(f.accountId, f.amount)}
  {
    var ys := xs + [e, f];
    assert ys[..|ys| - 1] == xs + [e];
    assert (xs + [e])[..|xs|] == xs;
  }

  lemma {:induction false} DoubleEntriesAppend(ts: seq<Transfer>, t: Transfer)
    ensures DoubleEntries(ts + [t]) ==
            DoubleEntries(ts) + multiset{Posting(t.fromId, Negate(t.amount)), Posting(t.toId, t.amount)}
  {
    assert (ts + [t])[..|ts|] == ts;
  }
}
