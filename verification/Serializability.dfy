/** Every interleaving of transfers and account openings ends in the state, and gives every caller
    the answer, of the serial run in commit order. */
module Serializability {
  import opened Ledger
  import opened Transfers
  import opened TransferInvariant

  /** What a change needs from the accounts it meets in the serial run. */
  predicate ValidChange(accounts: map<int, Account>, c: Change) {
    match c
    case Opened(a) => a.id !in accounts && a.balance == 0
    case Moved(_, req, _) =>
      && req.fromId in accounts && req.toId in accounts
      && (req.fromId == req.toId ==> req.amount != MIN_INT64)
  }

  predicate ValidLog(t: Tables, log: seq<Change>) {
    forall i | 0 <= i < |log| :: ValidAt(t, log, i)
  }

  predicate ValidAt(t: Tables, log: seq<Change>, i: nat)
    requires i < |log|
  {
    ValidChange(Replay(t, log[..i]).accounts, log[i])
  }

  /** The request behind the `i`-th change succeeded with the answer of the serial run. */
  predicate Answered(t: Tables, s: State, i: nat)
    requires i < |s.log| && s.log[i].Moved?
  {
    var c := s.log[i];
    var before := Replay(t, s.log[..i]).accounts;
    && c.pid < |s.requests|
    && s.requests[c.pid].stage == Done(OK)
    && s.requests[c.pid].req == c.req
    && c.req.fromId in before && c.req.toId in before
    && s.requests[c.pid].result == SerialResult(before, c.req, c.ids)
  }

  predicate IsCommitOf(c: Change, p: nat) {
    c.Moved? && c.pid == p
  }

  predicate LogExplains(t: Tables, s: State) {
    && s.tables == Replay(t, s.log)
    && ValidLog(t, s.log)
    && (forall i | 0 <= i < |s.log| && s.log[i].Moved? :: Answered(t, s, i))
    && (forall p | 0 <= p < |s.requests| && s.requests[p].stage == Done(OK) ::
          exists i :: 0 <= i < |s.log| && IsCommitOf(s.log[i], p))
    && (forall i, j | 0 <= i < j < |s.log| && s.log[i].Moved? && s.log[j].Moved? :: s.log[i].pid != s.log[j].pid)
  }

  /** At its commit a transaction does, in one go, exactly what the serial transfer does. */
  lemma CommitIsSerial(s: State, pid: nat)
    requires pid < |s.requests| && Coherent(s.tables.accounts, s.requests[pid])
    requires s.requests[pid].stage.Commit? && !s.requests[pid].aborted
    ensures var c := Moved(pid, s.requests[pid].req, IdsOf(s.requests[pid].result));
            && Install(s, pid).tables == Perform(s.tables, c)
            && ValidChange(s.tables.accounts, c)
            && s.requests[pid].result == SerialResult(s.tables.accounts, c.req, c.ids)
  {
    var r := s.requests[pid];
    var c := Moved(pid, r.req, IdsOf(r.result));
    assert s.tables.accounts + FinalRows(s.tables.accounts, r.req) == SerialAccounts(s.tables.accounts, r.req);
    assert r.writes.transfers == [r.result.transfer.value];
    assert r.writes.entries == [r.result.fromEntry.value, r.result.toEntry.value];
  }

  lemma ReplayOneMore(t: Tables, log: seq<Change>, c: Change)
    requires ValidLog(t, log) && ValidChange(Replay(t, log).accounts, c)
    ensures ValidLog(t, log + [c]) && Replay(t, log + [c]) == Perform(Replay(t, log), c)
  {
    var n := |log|;
    var longer := log + [c];
    assert longer[..n] == log;
    forall i | 0 <= i < |longer|
      ensures ValidAt(t, longer, i)
    {
      if i < n {
        assert ValidAt(t, log, i);
        assert longer[..i] == log[..i];
      }
    }
    hide ValidChange;
  }

  lemma AnswerKept(t: Tables, s: State, s': State, i: nat)
    requires i < |s.log| && s.log <= s'.log && s.log[i].Moved? && Answered(t, s, i)
    requires s.log[i].pid < |s'.requests| && s'.requests[s.log[i].pid] == s.requests[s.log[i].pid]
    ensures Answered(t, s', i)
  {
    assert s'.log[..i] == s.log[..i];
  }

  lemma LogGrows(t: Tables, s: State, s': State, c: Change)
    requires LogExplains(t, s)
    requires s'.log == s.log + [c] && s'.tables == Perform(s.tables, c) && ValidChange(s.tables.accounts, c)
    requires |s'.requests| == |s.requests|
    requires forall p | 0 <= p < |s.requests| && s.requests[p].stage == Done(OK) :: s'.requests[p] == s.requests[p]
    requires c.Moved? ==>
      && c.pid < |s.requests| && s.requests[c.pid].stage != Done(OK)
      && s'.requests[c.pid].stage == Done(OK)
      && s'.requests[c.pid].req == c.req
      && s'.requests[c.pid].result == SerialResult(s.tables.accounts, c.req, c.ids)
    requires forall p | 0 <= p < |s.requests| && s'.requests[p].stage == Done(OK) ::
      s.requests[p].stage == Done(OK) || IsCommitOf(c, p)
    ensures LogExplains(t, s')
  {
    var n := |s.log|;
    ReplayOneMore(t, s.log, c);
    assert s'.log[..n] == s.log;
    assert c.Moved? ==> Answered(t, s', n);
    hide ValidLog;
    hide ValidChange;
    hide Perform;
    forall i | 0 <= i < |s'.log| && s'.log[i].Moved?
      ensures Answered(t, s', i)
    {
      if i < n {
        assert Answered(t, s, i);
        AnswerKept(t, s, s', i);
      }
    }
    forall p | 0 <= p < |s'.requests| && s'.requests[p].stage == Done(OK)
      ensures exists i :: 0 <= i < |s'.log| && IsCommitOf(s'.log[i], p)
    {
      if s.requests[p].stage == Done(OK) {
        var i :| 0 <= i < n && IsCommitOf(s.log[i], p);
        assert IsCommitOf(s'.log[i], p);
      } else {
        assert IsCommitOf(s'.log[n], p);
      }
    }
    forall i, j | 0 <= i < j < |s'.log| && s'.log[i].Moved? && s'.log[j].Moved?
      ensures s'.log[i].pid != s'.log[j].pid
    {
      assert Answered(t, s, i);
    }
  }

  lemma LogKept(t: Tables, s: State, s': State)
    requires LogExplains(t, s)
    requires s'.log == s.log && s'.tables == s.tables
    requires |s'.requests| >= |s.requests|
    requires forall p | 0 <= p < |s.requests| && s.requests[p].stage == Done(OK) :: s'.requests[p] == s.requests[p]
    requires forall p | 0 <= p < |s'.requests| && s'.requests[p].stage == Done(OK) ::
      p < |s.requests| && s.requests[p].stage == Done(OK)
    ensures LogExplains(t, s')
  {
    forall i | 0 <= i < |s'.log| && s'.log[i].Moved?
      ensures Answered(t, s', i)
    {
      assert Answered(t, s, i);
    }
  }

  predicate Commits(s: State, e: Event) {
    && e.Step? && Enabled(s, e)
    && s.requests[e.pid].stage.Commit? && !s.requests[e.pid].aborted
  }

  /** Only a successful commit or a successful account opening is visible to others. */
  predicate Publishes(s: State, e: Event) {
    Commits(s, e) || (e.OpenAccount? && Apply(s, e).log != s.log)
  }

  lemma PrivateMove(s: State, pid: nat)
    requires Unfinished(s, pid)
    ensures var s' := ExecFail(s, pid);
            && s'.requests == s.requests[pid := s'.requests[pid]] && s'.requests[pid].stage != Done(OK)
            && s'.log == s.log && s'.tables == s.tables
    ensures var s' := ExecStep(s, pid);
            && s'.requests == s.requests[pid := s'.requests[pid]]
            && (Commits(s, Step(pid)) || Blocked(s, pid)
                || (s'.requests[pid].stage != Done(OK) && s'.log == s.log && s'.tables == s.tables))
  {
  }

  lemma QuietStep(s: State, e: Event)
    requires !Publishes(s, e)
    ensures var s' := Apply(s, e);
            && s'.log == s.log && s'.tables == s.tables && |s'.requests| >= |s.requests|
            && (forall p | 0 <= p < |s.requests| && s.requests[p].stage == Done(OK) :: s'.requests[p] == s.requests[p])
            && (forall p | 0 <= p < |s'.requests| && s'.requests[p].stage == Done(OK) ::
                  p < |s.requests| && s.requests[p].stage == Done(OK))
  {
    if Enabled(s, e) && (e.Step? || e.Fail?) {
      PrivateMove(s, e.pid);
      hide ExecStep;
      hide ExecFail;
    }
  }

  lemma CommitKeepsLog(t: Tables, s: State, pid: nat)
    requires Inv(s) && LogExplains(t, s) && Commits(s, Step(pid))
    ensures LogExplains(t, Install(s, pid))
  {
    hide LogExplains;
    assert Coherent(s.tables.accounts, s.requests[pid]);
    CommitIsSerial(s, pid);
    hide Coherent;
    LogGrows(t, s, Install(s, pid), Moved(pid, s.requests[pid].req, IdsOf(s.requests[pid].result)));
  }

  lemma ApplyKeepsLog(t: Tables, s: State, e: Event)
    requires Inv(s) && LogExplains(t, s)
    ensures LogExplains(t, Apply(s, e))
  {
    hide LogExplains;
    hide Coherent;
    var s' := Apply(s, e);
    if Commits(s, e) {
      CommitKeepsLog(t, s, e.pid);
    } else if Publishes(s, e) {
      LogGrows(t, s, s', s'.log[|s.log|]);
    } else {
      QuietStep(s, e);
      LogKept(t, s, s');
    }
  }

  lemma {:induction false} ExecKeepsLog(t: Tables, s: State, events: seq<Event>)
    requires Inv(s) && LogExplains(t, s)
    ensures LogExplains(t, Exec(s, events))
  {
    if |events| == 0 {
    } else {
      var before := events[..|events| - 1];
      ExecKeepsLog(t, s, before);
      ExecKeepsInv(s, before);
      ApplyKeepsLog(t, Exec(s, before), events[|events| - 1]);
    }
  }

  /** Serializability. From any opening accounts, whatever the events, with transfers that come
      through the handler and transfers that do not: the committed tables are the serial run of the
      log; the log names exactly the successful requests, each once; each of them was answered as in
      the serial run. */
  lemma Serializable(s0: State, events: seq<Event>)
    requires Start(s0)
    ensures LogExplains(s0.tables, Exec(s0, events))
  {
    StartInv(s0);
    ExecKeepsLog(s0.tables, s0, events);
  }

  /** The serial order is the order of the answers: what is logged stays where it is. */
  lemma {:induction false} LogOnlyGrows(s: State, events: seq<Event>)
    ensures s.log <= Exec(s, events).log
  {
    if |events| == 0 {
    } else {
      LogOnlyGrows(s, events[..|events| - 1]);
    }
  }

  /** A request that did not succeed has no share in the committed tables: they are the serial run
      of changes none of which is its own. */
  lemma UnsuccessfulContributesNothing(s0: State, events: seq<Event>, pid: nat)
    requires Start(s0)
    requires var s := Exec(s0, events); pid < |s.requests| && s.requests[pid].stage != Done(OK)
    ensures var s := Exec(s0, events);
            && s.tables == Replay(s0.tables, s.log)
            && forall i | 0 <= i < |s.log| :: !IsCommitOf(s.log[i], pid)
  {
    var s := Exec(s0, events);
    Serializable(s0, events);
    forall i | 0 <= i < |s.log|
      ensures !IsCommitOf(s.log[i], pid)
    {
      if s.log[i].Moved? {
        assert Answered(s0.tables, s, i);
      }
    }
  }

  /* ---- What the handler's checks mean in the serial run ---- */

  /** When the `i`-th change meets the accounts, both ends hold the request's currency and the
      amount is positive. */
  predicate FairAt(t: Tables, log: seq<Change>, i: nat)
    requires i < |log| && log[i].Moved?
  {
    var before := Replay(t, log[..i]).accounts;
    var req := log[i].req;
    && req.fromId in before && req.toId in before
    && before[req.fromId].currency == before[req.toId].currency == req.currency
    && 0 < req.amount
  }

  predicate FairLog(t: Tables, log: seq<Change>) {
    forall i | 0 <= i < |log| && log[i].Moved? :: FairAt(t, log, i)
  }

  lemma PerformExtends(t: Tables, c: Change)
    requires ValidChange(t.accounts, c)
    ensures Extends(t.accounts, Perform(t, c).accounts)
  {
  }

  lemma {:induction false} ReplayExtends(t: Tables, log: seq<Change>, i: nat)
    requires ValidLog(t, log) && i <= |log|
    ensures Extends(Replay(t, log[..i]).accounts, Replay(t, log).accounts)
  {
    if i == |log| {
      assert log[..i] == log;
    } else {
      var before := log[..|log| - 1];
      ValidPrefix(t, log);
      assert before[..i] == log[..i];
      ReplayExtends(t, before, i);
      PerformExtends(Replay(t, before), log[|log| - 1]);
      hide Perform;
      hide ValidChange;
      hide ValidLog;
    }
  }

  lemma ValidPrefix(t: Tables, log: seq<Change>)
    requires ValidLog(t, log) && |log| > 0
    ensures ValidLog(t, log[..|log| - 1])
    ensures ValidChange(Replay(t, log[..|log| - 1]).accounts, log[|log| - 1])
  {
    var n := |log| - 1;
    assert ValidAt(t, log, n);
    forall i | 0 <= i < n
      ensures ValidAt(t, log[..n], i)
    {
      assert ValidAt(t, log, i);
      assert log[..n][..i] == log[..i];
    }
  }

  lemma FairPrefix(t: Tables, log: seq<Change>)
    requires FairLog(t, log) && |log| > 0
    ensures FairLog(t, log[..|log| - 1])
    ensures log[|log| - 1].Moved? ==> FairAt(t, log, |log| - 1)
  {
    var n := |log| - 1;
    forall i | 0 <= i < n && log[i].Moved?
      ensures FairAt(t, log[..n], i)
    {
      assert FairAt(t, log, i);
      assert log[..n][..i] == log[..i];
    }
  }

  /** When every transfer comes through the handler, each one meets, at its place in the serial
      run, two accounts of its currency, the first of them its caller's. */
  lemma HandlersAreFair(s0: State, events: seq<Event>)
    requires Initial(s0)
    ensures var s := Exec(s0, events);
            && FairLog(s0.tables, s.log)
            && forall i | 0 <= i < |s.log| && s.log[i].Moved? ::
                 && s.log[i].pid < |s.requests|
                 && s.log[i].req.fromId in Replay(s0.tables, s.log[..i]).accounts
                 && s.requests[s.log[i].pid].user == Replay(s0.tables, s.log[..i]).accounts[s.log[i].req.fromId].owner
  {
    var s := Exec(s0, events);
    Serializable(s0, events);
    HandlersKeepInv(s0, events);
    forall i | 0 <= i < |s.log| && s.log[i].Moved?
      ensures FairAt(s0.tables, s.log, i)
      ensures s.log[i].pid < |s.requests|
      ensures s.requests[s.log[i].pid].user == Replay(s0.tables, s.log[..i]).accounts[s.log[i].req.fromId].owner
    {
      assert Answered(s0.tables, s, i);
      ReplayExtends(s0.tables, s.log, i);
      assert Served(s.tables.accounts, s.requests[s.log[i].pid]);
      hide Inv;
      hide Replay;
    }
  }
}
