/** Row ids. Two transfers, or two entries, never get the same id, in whatever interleaving their
    transactions draw from the sequences, and whether or not they commit. */
module RowIds {
  import opened Ledger
  import opened Transfers
  import opened TransferInvariant
  import opened Serializability

  function TransferUses(rows: seq<Transfer>, x: int): nat {
    if |rows| == 0 then 0
    else TransferUses(rows[..|rows| - 1], x) + (if rows[|rows| - 1].id == x then 1 else 0)
  }

  function EntryUses(rows: seq<Entry>, x: int): nat {
    if |rows| == 0 then 0
    else EntryUses(rows[..|rows| - 1], x) + (if rows[|rows| - 1].id == x then 1 else 0)
  }

  datatype Kind = TransferRows | EntryRows

  function TableUses(t: Tables, kind: Kind, x: int): nat {
    if kind.TransferRows? then TransferUses(t.transfers, x) else EntryUses(t.entries, x)
  }

  function PrivateUses(r: Request, kind: Kind, x: int): nat {
    if kind.TransferRows? then TransferUses(r.writes.transfers, x) else EntryUses(r.writes.entries, x)
  }

  function NextId(s: State, kind: Kind): int {
    if kind.TransferRows? then s.nextTransfer else s.nextEntry
  }

  function OpenUses(rs: seq<Request>, kind: Kind, x: int): nat {
    if |rs| == 0 then 0
    else OpenUses(rs[..|rs| - 1], kind, x) + PrivateUses(rs[|rs| - 1], kind, x)
  }

  /** How many rows have the id, committed ones and those of open transactions. */
  function Uses(s: State, kind: Kind, x: int): nat {
    TableUses(s.tables, kind, x) + OpenUses(s.requests, kind, x)
  }

  predicate UsedOnce(s: State, kind: Kind, x: int) {
    Uses(s, kind, x) <= 1 && (x >= NextId(s, kind) ==> Uses(s, kind, x) == 0)
  }

  lemma {:induction false} OpenUsesUpdate(rs: seq<Request>, p: nat, r: Request, kind: Kind, x: int)
    requires p < |rs|
    ensures OpenUses(rs[p := r], kind, x)
            == OpenUses(rs, kind, x) - PrivateUses(rs[p], kind, x) + PrivateUses(r, kind, x)
    ensures OpenUses(rs, kind, x) >= PrivateUses(rs[p], kind, x)
  {
    hide PrivateUses;
    var n := |rs| - 1;
    if p == n {
      assert rs[p := r][..n] == rs[..n];
    } else {
      assert rs[p := r][..n] == rs[..n][p := r];
      OpenUsesUpdate(rs[..n], p, r, kind, x);
    }
  }

  lemma {:induction false} TransferUsesConcat(xs: seq<Transfer>, ys: seq<Transfer>, x: int)
    ensures TransferUses(xs + ys, x) == TransferUses(xs, x) + TransferUses(ys, x)
  {
    if |ys| == 0 {
      assert xs + ys == xs;
    } else {
      assert (xs + ys)[..|xs + ys| - 1] == xs + ys[..|ys| - 1];
      TransferUsesConcat(xs, ys[..|ys| - 1], x);
    }
  }

  lemma {:induction false} EntryUsesConcat(xs: seq<Entry>, ys: seq<Entry>, x: int)
    ensures EntryUses(xs + ys, x) == EntryUses(xs, x) + EntryUses(ys, x)
  {
    if |ys| == 0 {
      assert xs + ys == xs;
    } else {
      assert (xs + ys)[..|xs + ys| - 1] == xs + ys[..|ys| - 1];
      EntryUsesConcat(xs, ys[..|ys| - 1], x);
    }
  }

  /** What one move does to the rows with id `x`: nothing, a new private row under the next id, a
      rollback, or a commit. (A refused insert draws an id, too.) */
  predicate MovesRows(s: State, s': State, p: nat, kind: Kind, x: int)
    requires p < |s.requests|
  {
    && p < |s'.requests| && s'.requests == s.requests[p := s'.requests[p]]
    && var table, own := TableUses(s.tables, kind, x), PrivateUses(s.requests[p], kind, x);
    && var table', own' := TableUses(s'.tables, kind, x), PrivateUses(s'.requests[p], kind, x);
    && NextId(s, kind) <= NextId(s', kind)
    && (|| (table' == table && own' == own)
        || (table' == table && x == NextId(s, kind) < NextId(s', kind) && own' == own + 1)
        || (table' == table && own' == 0)
        || (table' == table + own && own' == 0))
  }

  lemma InsertTransferMovesRows(s: State, p: nat, kind: Kind, x: int)
    requires p < |s.requests|
    ensures MovesRows(s, ExecInsertTransfer(s, p), p, kind, x)
  {
    var r := s.requests[p];
    TransferUsesConcat(r.writes.transfers, [Transfer(s.nextTransfer, r.req.fromId, r.req.toId, r.req.amount)], x);
  }

  lemma InsertEntryMovesRows(s: State, p: nat, kind: Kind, x: int)
    requires p < |s.requests|
    ensures MovesRows(s, ExecInsertEntry(s, p), p, kind, x)
  {
    var w, w' := s.requests[p].writes.entries, ExecInsertEntry(s, p).requests[p].writes.entries;
    if |w'| > |w| {
      EntryUsesConcat(w, [w'[|w|]], x);
      assert w' == w + [w'[|w|]];
    }
  }

  lemma EndMovesRows(s: State, p: nat, kind: Kind, x: int)
    requires p < |s.requests|
    ensures MovesRows(s, Discard(s, p), p, kind, x) && MovesRows(s, Install(s, p), p, kind, x)
  {
    TransferUsesConcat(s.tables.transfers, s.requests[p].writes.transfers, x);
    EntryUsesConcat(s.tables.entries, s.requests[p].writes.entries, x);
  }

  lemma UpdateMovesRows(s: State, p: nat, kind: Kind, x: int)
    requires p < |s.requests| && Updating(s.requests[p])
    ensures MovesRows(s, ExecUpdate(s, p), p, kind, x)
  {
  }

  lemma JumpMovesRows(s: State, p: nat, stage: Stage, kind: Kind, x: int)
    requires p < |s.requests|
    ensures MovesRows(s, Goto(s, p, stage), p, kind, x) && MovesRows(s, Abort(s, p, stage), p, kind, x)
  {
  }

  lemma FailMovesRows(s: State, p: nat, kind: Kind, x: int)
    requires Unfinished(s, p)
    ensures MovesRows(s, ExecFail(s, p), p, kind, x)
  {
    JumpMovesRows(s, p, Done(InternalError), kind, x);
    JumpMovesRows(s, p, Rollback, kind, x);
    JumpMovesRows(s, p, Commit, kind, x);
    EndMovesRows(s, p, kind, x);
    hide MovesRows;
    hide Goto;
    hide Abort;
    hide Discard;
  }

  lemma CheckMovesRows(s: State, p: nat, kind: Kind, x: int)
    requires p < |s.requests|
    requires var st := s.requests[p].stage; st.CheckFrom? || st.CheckTo? || st.BeginTx?
    ensures MovesRows(s, ExecStep(s, p), p, kind, x)
  {
    var next := ExecStep(s, p).requests[p].stage;
    JumpMovesRows(s, p, next, kind, x);
    assert ExecStep(s, p) == Goto(s, p, next);
    hide MovesRows;
    hide ExecStep;
  }

  lemma StepMovesRows(s: State, p: nat, kind: Kind, x: int)
    requires Unfinished(s, p)
    ensures MovesRows(s, ExecStep(s, p), p, kind, x)
  {
    hide MovesRows;
    hide ExecInsertTransfer;
    hide ExecInsertEntry;
    hide ExecUpdate;
    hide Install;
    hide Discard;
    match s.requests[p].stage
    case CheckFrom | CheckTo | BeginTx => CheckMovesRows(s, p, kind, x); hide ExecStep;
    case InsertTransfer => InsertTransferMovesRows(s, p, kind, x);
    case InsertFromEntry | InsertToEntry => InsertEntryMovesRows(s, p, kind, x);
    case FirstUpdate | SecondUpdate => UpdateMovesRows(s, p, kind, x);
    case Commit | Rollback => EndMovesRows(s, p, kind, x);
  }

  lemma ApplyKeepsUses(s: State, e: Event, kind: Kind, x: int)
    requires UsedOnce(s, kind, x)
    ensures UsedOnce(Apply(s, e), kind, x)
  {
    var s' := Apply(s, e);
    if (e.Step? || e.Fail?) && Enabled(s, e) {
      StepMovesRows(s, e.pid, kind, x);
      FailMovesRows(s, e.pid, kind, x);
      hide ExecStep;
      hide ExecFail;
      OpenUsesUpdate(s.requests, e.pid, s'.requests[e.pid], kind, x);
      hide OpenUses;
      hide PrivateUses;
      hide TableUses;
    } else if e.Arrive? {
      assert s'.requests[..|s'.requests| - 1] == s.requests;
    }
  }

  lemma {:induction false} NothingInUse(rs: seq<Request>, kind: Kind, x: int)
    requires forall p | 0 <= p < |rs| :: AboutToBegin(rs[p])
    ensures OpenUses(rs, kind, x) == 0
  {
    if |rs| == 0 {
    } else {
      NothingInUse(rs[..|rs| - 1], kind, x);
    }
  }

  lemma {:induction false} ExecKeepsUses(s0: State, events: seq<Event>, kind: Kind, x: int)
    requires Start(s0)
    ensures UsedOnce(Exec(s0, events), kind, x)
  {
    hide Apply;
    if |events| == 0 {
      NothingInUse(s0.requests, kind, x);
    } else {
      hide UsedOnce;
      ExecKeepsUses(s0, events[..|events| - 1], kind, x);
      ApplyKeepsUses(Exec(s0, events[..|events| - 1]), events[|events| - 1], kind, x);
    }
  }

  lemma {:induction false} UsedTwice(rows: seq<Transfer>, i: nat, j: nat)
    requires i < j < |rows| && rows[i].id == rows[j].id
    ensures TransferUses(rows, rows[i].id) >= 2
  {
    if j == |rows| - 1 {
      UsedHere(rows[..j], i);
    } else {
      UsedTwice(rows[..|rows| - 1], i, j);
    }
  }

  lemma {:induction false} UsedHere(rows: seq<Transfer>, i: nat)
    requires i < |rows|
    ensures TransferUses(rows, rows[i].id) >= 1
  {
    if i == |rows| - 1 {
    } else {
      UsedHere(rows[..|rows| - 1], i);
    }
  }

  lemma {:induction false} EntryUsedTwice(rows: seq<Entry>, i: nat, j: nat)
    requires i < j < |rows| && rows[i].id == rows[j].id
    ensures EntryUses(rows, rows[i].id) >= 2
  {
    if j == |rows| - 1 {
      EntryUsedHere(rows[..j], i);
    } else {
      EntryUsedTwice(rows[..|rows| - 1], i, j);
    }
  }

  lemma {:induction false} EntryUsedHere(rows: seq<Entry>, i: nat)
    requires i < |rows|
    ensures EntryUses(rows, rows[i].id) >= 1
  {
    if i == |rows| - 1 {
    } else {
      EntryUsedHere(rows[..|rows| - 1], i);
    }
  }

  /** In every reachable state all committed transfers have different ids, and so have all committed
      entries. */
  lemma IdsAreUnique(s0: State, events: seq<Event>)
    requires Start(s0)
    ensures var t := Exec(s0, events).tables;
            && (forall i, j | 0 <= i < j < |t.transfers| :: t.transfers[i].id != t.transfers[j].id)
            && (forall i, j | 0 <= i < j < |t.entries| :: t.entries[i].id != t.entries[j].id)
  {
    var t := Exec(s0, events).tables;
    hide Exec;
    hide Start;
    forall i, j | 0 <= i < j < |t.transfers|
      ensures t.transfers[i].id != t.transfers[j].id
    {
      if t.transfers[i].id == t.transfers[j].id {
        UsedTwice(t.transfers, i, j);
        ExecKeepsUses(s0, events, TransferRows, t.transfers[i].id);
      }
    }
    forall i, j | 0 <= i < j < |t.entries|
      ensures t.entries[i].id != t.entries[j].id
    {
      if t.entries[i].id == t.entries[j].id {
        EntryUsedTwice(t.entries, i, j);
        ExecKeepsUses(s0, events, EntryRows, t.entries[i].id);
      }
    }
  }
}
