/** Account listing: the query behind `ListAccounts`, the paging arithmetic of `listAccount` in 32
    bits, and when its pages partition the list. */
module Paging {
  import opened Wrappers
  import opened Ledger
  import opened Transfers
  import opened TransferInvariant

  const MAX_INT32: int := 0x7FFF_FFFF

  /** Two's complement wrap-around of Go's int32. */
  function WrapInt32(x: int): int {
    (x + 0x8000_0000) % 0x1_0000_0000 - 0x8000_0000
  }

  function Min(x: int, y: int): int {
    if x < y then x else y
  }

  /** The owner's rows with ids below `bound`, in id order. */
  function OwnerRows(accounts: map<int, Account>, owner: string, bound: nat): seq<Account> {
    if bound == 0 then []
    else
      OwnerRows(accounts, owner, bound - 1)
      + (if bound - 1 in accounts && accounts[bound - 1].owner == owner then [accounts[bound - 1]] else [])
  }

  function Slice(rows: seq<Account>, offset: nat, limit: nat): seq<Account> {
    rows[Min(offset, |rows|)..Min(offset + limit, |rows|)]
  }

  /** The query: a negative OFFSET is an error. */
  function Query(rows: seq<Account>, limit: nat, offset: int): Option<seq<Account>> {
    if offset < 0 then None else Some(Slice(rows, offset, limit))
  }

  /** The offset that the handler computes. */
  function Offset(pageId: int, pageSize: int): int {
    WrapInt32((pageId - 1) * pageSize)
  }

  predicate BindsPage(pageId: int, pageSize: int) {
    1 <= pageId <= MAX_INT32 && 5 <= pageSize <= 10
  }

  /** Two's complement: the offset is an int32, and differs from the product by a multiple of 2^32. */
  lemma OffsetIsWrapped(pageId: int, pageSize: int)
    ensures -0x8000_0000 <= Offset(pageId, pageSize) <= 0x7FFF_FFFF
    ensures ((pageId - 1) * pageSize - Offset(pageId, pageSize)) % 0x1_0000_0000 == 0
  {
    var x := (pageId - 1) * pageSize + 0x8000_0000;
    assert x - x % 0x1_0000_0000 == 0x1_0000_0000 * (x / 0x1_0000_0000);
  }

  function Page(rows: seq<Account>, pageId: int, pageSize: nat): Option<seq<Account>> {
    Query(rows, pageSize, Offset(pageId, pageSize))
  }

  /** The rows that a page is meant to show. */
  function TruePage(rows: seq<Account>, pageId: nat, pageSize: nat): seq<Account>
    requires pageId >= 1
  {
    Slice(rows, (pageId - 1) * pageSize, pageSize)
  }

  predicate IsRowBelow(accounts: map<int, Account>, owner: string, bound: nat, row: Account) {
    0 <= row.id < bound && row.id in accounts && accounts[row.id] == row && row.owner == owner
  }

  /** The rows are exactly the owner's accounts below `bound`, each once, in ascending id order. */
  predicate ListsAccounts(rows: seq<Account>, accounts: map<int, Account>, owner: string, bound: nat) {
    && (forall i, j | 0 <= i < j < |rows| :: rows[i].id < rows[j].id)
    && (forall i | 0 <= i < |rows| :: IsRowBelow(accounts, owner, bound, rows[i]))
    && (forall id | id in accounts && 0 <= id < bound && accounts[id].owner == owner :: accounts[id] in rows)
  }

  lemma NothingBelowZero(accounts: map<int, Account>, owner: string)
    ensures ListsAccounts([], accounts, owner, 0)
  {
  }

  lemma NoRowAtBound(rows: seq<Account>, accounts: map<int, Account>, owner: string, bound: nat)
    requires ListsAccounts(rows, accounts, owner, bound)
    requires bound in accounts ==> accounts[bound].owner != owner
    ensures ListsAccounts(rows, accounts, owner, bound + 1)
  {
    forall i | 0 <= i < |rows|
      ensures IsRowBelow(accounts, owner, bound + 1, rows[i])
    {
      assert IsRowBelow(accounts, owner, bound, rows[i]);
    }
  }

  lemma RowAtBound(rows: seq<Account>, accounts: map<int, Account>, owner: string, bound: nat)
    requires ListsAccounts(rows, accounts, owner, bound)
    requires bound in accounts && accounts[bound].id == bound && accounts[bound].owner == owner
    ensures ListsAccounts(rows + [accounts[bound]], accounts, owner, bound + 1)
  {
    var longer := rows + [accounts[bound]];
    forall i | 0 <= i < |longer|
      ensures IsRowBelow(accounts, owner, bound + 1, longer[i])
    {
      assert i < |rows| ==> IsRowBelow(accounts, owner, bound, rows[i]);
    }
    forall i, j | 0 <= i < j < |longer|
      ensures longer[i].id < longer[j].id
    {
      assert IsRowBelow(accounts, owner, bound, rows[i]);
    }
    forall id | id in accounts && 0 <= id < bound + 1 && accounts[id].owner == owner
      ensures accounts[id] in longer
    {
      if id < bound {
        assert accounts[id] in rows;
      } else {
        assert longer[|rows|] == accounts[id];
      }
    }
  }

  lemma {:induction false} OwnerRowsAreTheAccounts(accounts: map<int, Account>, owner: string, bound: nat)
    requires forall id | id in accounts :: accounts[id].id == id
    ensures ListsAccounts(OwnerRows(accounts, owner, bound), accounts, owner, bound)
  {
    hide ListsAccounts;
    if bound == 0 {
      NothingBelowZero(accounts, owner);
    } else {
      OwnerRowsAreTheAccounts(accounts, owner, bound - 1);
      var before := OwnerRows(accounts, owner, bound - 1);
      if bound - 1 in accounts && accounts[bound - 1].owner == owner {
        RowAtBound(before, accounts, owner, bound - 1);
      } else {
        NoRowAtBound(before, accounts, owner, bound - 1);
        assert before + [] == before;
      }
    }
  }

  lemma NoWrap(pageId: int, pageSize: int)
    requires BindsPage(pageId, pageSize) && (pageId - 1) * pageSize <= MAX_INT32
    ensures Offset(pageId, pageSize) == (pageId - 1) * pageSize >= 0
  {
  }

  /** The concatenation of pages 1..k, if none of them is an error. */
  function FirstPages(rows: seq<Account>, k: nat, pageSize: nat): Option<seq<Account>> {
    if k == 0 then Some([])
    else
      match (FirstPages(rows, k - 1, pageSize), Page(rows, k, pageSize))
      case (Some(xs), Some(ys)) => Some(xs + ys)
      case _ => None
  }

  lemma OneMorePage(rows: seq<Account>, offset: nat, limit: nat)
    ensures rows[..Min(offset, |rows|)] + Slice(rows, offset, limit) == rows[..Min(offset + limit, |rows|)]
  {
  }

  /** Pages partition the list: pages 1..k together are the first k * pageSize rows, with no gap and
      no repeat, as long as the product of the last page fits in 32 bits. */
  lemma {:induction false} PagesPartition(rows: seq<Account>, k: nat, pageSize: nat)
    requires 5 <= pageSize <= 10 && k <= MAX_INT32 && (k - 1) * pageSize <= MAX_INT32
    ensures FirstPages(rows, k, pageSize) == Some(rows[..Min(k * pageSize, |rows|)])
  {
    if k == 0 {
    } else {
      assert (k - 1) * pageSize == (k - 2) * pageSize + pageSize;
      PagesPartition(rows, k - 1, pageSize);
      NoWrap(k, pageSize);
      OneMorePage(rows, (k - 1) * pageSize, pageSize);
      assert (k - 1) * pageSize + pageSize == k * pageSize;
      hide Slice;
      hide Offset;
      hide Min;
    }
  }

  /** The page is the right one on every list if and only if the product fits in 32 bits. Otherwise
      the offset wraps: to a negative one, an error, or to an earlier page. */
  lemma PageIsRightIff(pageId: nat, pageSize: nat)
    requires BindsPage(pageId, pageSize)
    ensures (forall rows: seq<Account> :: Page(rows, pageId, pageSize) == Some(TruePage(rows, pageId, pageSize)))
            <==> (pageId - 1) * pageSize <= MAX_INT32
  {
    var product := (pageId - 1) * pageSize;
    if product <= MAX_INT32 {
      NoWrap(pageId, pageSize);
    } else {
      var wrapped := Offset(pageId, pageSize);
      WrapIsSmaller(product);
      if wrapped < 0 {
        assert Page([], pageId, pageSize) == None;
      } else {
        var rows := seq(wrapped + 1, i => Account(i, "ada", 0, "EUR"));
        assert TruePage(rows, pageId, pageSize) == [];
        assert |Slice(rows, wrapped, pageSize)| == 1;
        assert Page(rows, pageId, pageSize) != Some(TruePage(rows, pageId, pageSize));
      }
    }
  }

  /** Which lists show it: on a list of distinct rows, as the query yields them, the page is the right
      one if and only if the product fits, or the wrapped offset is past the end as well. */
  lemma PageIsRightOnList(rows: seq<Account>, pageId: nat, pageSize: nat)
    requires BindsPage(pageId, pageSize)
    requires forall i, j | 0 <= i < j < |rows| :: rows[i].id < rows[j].id
    ensures Page(rows, pageId, pageSize) == Some(TruePage(rows, pageId, pageSize))
            <==> (pageId - 1) * pageSize <= MAX_INT32 || |rows| <= Offset(pageId, pageSize)
  {
    var product := (pageId - 1) * pageSize;
    if product <= MAX_INT32 {
      NoWrap(pageId, pageSize);
    } else {
      var wrapped := Offset(pageId, pageSize);
      WrapIsSmaller(product);
      if 0 <= wrapped < |rows| {
        assert Slice(rows, wrapped, pageSize)[0] == rows[wrapped];
        if product < |rows| {
          assert Slice(rows, product, pageSize)[0] == rows[product];
        }
      }
    }
  }

  /* ---- The lists that can occur ---- */

  /** One owner, and every currency at most once. */
  predicate OneEach(rows: seq<Account>) {
    && (forall i | 0 <= i < |rows| :: IsSupportedCurrency(rows[i].currency))
    && AllDiffer(rows)
  }

  predicate AllDiffer(rows: seq<Account>) {
    forall i, j | 0 <= i < j < |rows| :: rows[i].currency != rows[j].currency
  }

  function Currencies(rows: seq<Account>): set<string> {
    set i | 0 <= i < |rows| :: rows[i].currency
  }

  lemma CurrenciesAppend(rows: seq<Account>, a: Account)
    ensures Currencies(rows + [a]) == Currencies(rows) + {a.currency}
  {
    var longer := rows + [a];
    forall c | c in Currencies(rows) + {a.currency}
      ensures c in Currencies(longer)
    {
      if c in Currencies(rows) {
        var i :| 0 <= i < |rows| && rows[i].currency == c;
        assert longer[i].currency == c;
      } else {
        assert longer[|rows|].currency == c;
      }
    }
  }

  lemma {:induction false} OneCurrencyPerRow(rows: seq<Account>)
    requires AllDiffer(rows)
    ensures |Currencies(rows)| == |rows|
  {
    if |rows| == 0 {
      assert Currencies(rows) == {};
    } else {
      var n := |rows| - 1;
      OneCurrencyPerRow(rows[..n]);
      CurrenciesAppend(rows[..n], rows[n]);
      assert rows == rows[..n] + [rows[n]];
      assert rows[n].currency !in Currencies(rows[..n]);
      hide Currencies;
    }
  }

  lemma AtMostThree(rows: seq<Account>)
    requires OneEach(rows)
    ensures |rows| <= 3
  {
    var supported := {"USD", "EUR", "CAD"};
    OneCurrencyPerRow(rows);
    assert Currencies(rows) <= supported;
    assert supported == Currencies(rows) + (supported - Currencies(rows));
  }

  function RowsOf(s: State, owner: string): seq<Account> {
    OwnerRows(s.tables.accounts, owner, s.nextAccount)
  }

  /** The unique constraint at work: in every run from a database whose accounts have supported
      currencies, an owner has at most one account in each of the three. */
  lemma OwnerHasAtMostThree(s0: State, events: seq<Event>, owner: string)
    requires Start(s0) && SupportedCurrencies(s0.tables.accounts)
    ensures |RowsOf(Exec(s0, events), owner)| <= 3
    ensures var s := Exec(s0, events);
            ListsAccounts(RowsOf(s, owner), s.tables.accounts, owner, s.nextAccount)
  {
    var s := Exec(s0, events);
    StartInv(s0);
    ExecKeepsInv(s0, events);
    ExecKeepsSchema(s0, events);
    hide Exec;
    hide Start;
    var rows := RowsOf(s, owner);
    OwnerRowsAreTheAccounts(s.tables.accounts, owner, s.nextAccount);
    hide OwnerRows;
    forall i | 0 <= i < |rows|
      ensures IsRowBelow(s.tables.accounts, owner, s.nextAccount, rows[i])
    {
    }
    AtMostThree(rows);
  }

  predicate ShowsTruePage(s: State, owner: string, pageId: int, pageSize: nat)
    requires pageId >= 1
  {
    Page(RowsOf(s, owner), pageId, pageSize) == Some(TruePage(RowsOf(s, owner), pageId, pageSize))
  }

  const NEW_BANK: State := State(Tables(map[], [], []), {"ada"}, 1, 1, 1, map[], [], [])

  lemma ThreeAccountsOccur() returns (events: seq<Event>)
    ensures |RowsOf(Exec(NEW_BANK, events), "ada")| == 3
  {
    var usd := OpenAccount("ada", "USD", false);
    var eur := OpenAccount("ada", "EUR", false);
    var cad := OpenAccount("ada", "CAD", false);
    events := [usd, eur, cad];
    assert events[..2] == [usd, eur] && [usd, eur][..1] == [usd] && [usd][..0] == [];
    var s1, s2, s3 := Exec(NEW_BANK, [usd]), Exec(NEW_BANK, [usd, eur]), Exec(NEW_BANK, events);
    assert Exec(NEW_BANK, []) == NEW_BANK;
    var a1, a2, a3 := Account(1, "ada", 0, "USD"), Account(2, "ada", 0, "EUR"), Account(3, "ada", 0, "CAD");
    assert s1.tables.accounts == map[1 := a1] && s1.nextAccount == 2;
    assert s2.tables.accounts == map[1 := a1, 2 := a2] && s2.nextAccount == 3;
    assert s3.tables.accounts == map[1 := a1, 2 := a2, 3 := a3] && s3.nextAccount == 4;
    hide Exec;
    hide Apply;
    assert OwnerRows(s3.tables.accounts, "ada", 1) == [];
  }

  /** The page is the right one for every owner in every state that can occur if and only if the
      product fits, or the wrapped offset is past the three accounts that an owner can have. */
  lemma PageIsRightInEveryRun(pageId: nat, pageSize: nat)
    requires 1 <= pageId <= 0x7FFF_FFFF && 5 <= pageSize <= 10
    ensures (forall s0, events, owner | Start(s0) && SupportedCurrencies(s0.tables.accounts) ::
               ShowsTruePage(Exec(s0, events), owner, pageId, pageSize))
            <==> (pageId - 1) * pageSize <= 0x7FFF_FFFF || Offset(pageId, pageSize) >= 3
  {
    hide Exec;
    if (pageId - 1) * pageSize <= MAX_INT32 || Offset(pageId, pageSize) >= 3 {
      forall s0, events, owner | Start(s0) && SupportedCurrencies(s0.tables.accounts)
        ensures ShowsTruePage(Exec(s0, events), owner, pageId, pageSize)
      {
        OwnerHasAtMostThree(s0, events, owner);
        PageIsRightOnList(RowsOf(Exec(s0, events), owner), pageId, pageSize);
      }
    } else {
      var events := ThreeAccountsOccur();
      OwnerHasAtMostThree(NEW_BANK, events, "ada");
      PageIsRightOnList(RowsOf(Exec(NEW_BANK, events), "ada"), pageId, pageSize);
      assert !ShowsTruePage(Exec(NEW_BANK, events), "ada", pageId, pageSize);
    }
  }

  lemma WrapIsSmaller(x: int)
    requires x > MAX_INT32
    ensures WrapInt32(x) < x
  {
  }

  /** One more row behind the ones scanned so far. */
  lemma SliceOneMore(rows: seq<Account>, a: Account, offset: nat, limit: nat)
    ensures Slice(rows + [a], offset, limit)
            == Slice(rows, offset, limit) + (if offset <= |rows| < offset + limit then [a] else [])
  {
    var n := |rows|;
    var lo, hi := Min(offset, n), Min(offset + limit, n);
    if offset <= n < offset + limit {
      assert (rows + [a])[offset..n + 1] == rows[offset..n] + [a];
    } else if n < offset {
      assert Min(offset, n + 1) == n + 1 == Min(offset + limit, n + 1);
    } else {
      assert (rows + [a])[lo..hi] == rows[lo..hi];
    }
  }

  /** The query as a scan in id order, appending to `items`. A fault is a query, or the reading of one
      of its rows, that fails for an outside reason: no row is answered then. */
  method ListAccounts(accounts: map<int, Account>, bound: nat, owner: string, limit: nat, offset: int, fault: bool)
    returns (items: Option<seq<Account>>)
    ensures items == if fault then None else Query(OwnerRows(accounts, owner, bound), limit, offset)
  {
    if fault || offset < 0 {
      return None;
    }
    var found: seq<Account> := [];
    var seen: nat := 0;
    for id := 0 to bound
      invariant seen == |OwnerRows(accounts, owner, id)|
      invariant found == Slice(OwnerRows(accounts, owner, id), offset, limit)
    {
      hide Slice;
      if id in accounts && accounts[id].owner == owner {
        SliceOneMore(OwnerRows(accounts, owner, id), accounts[id], offset, limit);
        if offset <= seen < offset + limit {
          found := found + [accounts[id]];
        }
        seen := seen + 1;
      }
    }
    return Some(found);
  }

  /** `listAccount`: the page, an error from the database, or a request that does not bind. */
  method HandleListAccount(accounts: map<int, Account>, bound: nat, user: string, pageId: int, pageSize: int,
                           fault: bool)
    returns (status: Status, items: seq<Account>)
    ensures status in {OK, BadRequest, InternalError}
    ensures status == BadRequest <==> !(1 <= pageId <= 0x7FFF_FFFF && 5 <= pageSize <= 10)
    ensures status == InternalError <==> status != BadRequest && (fault || Offset(pageId, pageSize) < 0)
    ensures status == OK ==>
              && pageSize >= 0 && Offset(pageId, pageSize) >= 0
              && var rows, from := OwnerRows(accounts, user, bound), Offset(pageId, pageSize);
              && (from >= |rows| ==> items == [])
              && (from < |rows| <= from + pageSize ==> items == rows[from..])
              && (from + pageSize < |rows| ==> items == rows[from..from + pageSize])
    ensures status == OK && (pageId - 1) * pageSize <= 0x7FFF_FFFF ==>
              items == TruePage(OwnerRows(accounts, user, bound), pageId, pageSize)
    ensures status != OK ==> items == []
  {
    if !(1 <= pageId <= MAX_INT32) || !(5 <= pageSize <= 10) {
      return BadRequest, [];
    }
    var rows := ListAccounts(accounts, bound, user, pageSize, WrapInt32((pageId - 1) * pageSize), fault);
    if rows == None {
      return InternalError, [];
    }
    if (pageId - 1) * pageSize <= MAX_INT32 {
      NoWrap(pageId, pageSize);
    }
    return OK, rows.value;
  }
}
