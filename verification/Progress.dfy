/** Id-ordered updates rule out deadlock, and every run of finitely many requests ends. */
module Progress {
  import opened Transfers
  import opened TransferInvariant

  /** The row that a request at one of its updates needs. */
  function Wanted(s: State, p: nat): int
    requires p < |s.requests| && Updating(s.requests[p])
  {
    Pending(s.requests[p]).id
  }

  lemma HolderIsCoherent(s: State, p: nat, q: nat)
    requires Inv(s) && WaitsFor(s, p, q)
    ensures q < |s.requests| && Coherent(s.tables.accounts, s.requests[q]) && Wanted(s, p) in s.requests[q].writes.rows
  {
    hide Coherent;
  }

  /** Whoever holds the row that `p` waits for is itself waiting, if at all, for a larger id. */
  lemma WaitsGoUp(s: State, p: nat, q: nat, r: nat)
    requires Inv(s) && WaitsFor(s, p, q) && WaitsFor(s, q, r)
    ensures Wanted(s, p) < Wanted(s, q)
  {
    hide RequestsCoherent;
    HolderIsCoherent(s, p, q);
    hide Inv;
  }

  predicate WaitPath(s: State, path: seq<nat>) {
    forall i | 0 <= i < |path| - 1 :: Edge(s, path, i)
  }

  predicate Edge(s: State, path: seq<nat>, i: nat)
    requires i < |path| - 1
  {
    WaitsFor(s, path[i], path[i + 1])
  }

  lemma {:induction false} WantedIncreases(s: State, path: seq<nat>)
    requires Inv(s) && WaitPath(s, path) && |path| >= 3
    ensures WaitsFor(s, path[0], path[1]) && WaitsFor(s, path[|path| - 2], path[|path| - 1])
    ensures Wanted(s, path[0]) < Wanted(s, path[|path| - 2])
  {
    hide Inv;
    var n := |path|;
    assert Edge(s, path, 0) && Edge(s, path, n - 3) && Edge(s, path, n - 2);
    WaitsGoUp(s, path[n - 3], path[n - 2], path[n - 1]);
    if n == 3 {
    } else {
      var shorter := path[..n - 1];
      assert forall i | 0 <= i < n - 2 :: Edge(s, path, i) ==> Edge(s, shorter, i);
      WantedIncreases(s, shorter);
      assert shorter[|shorter| - 2] == path[n - 3];
    }
  }

  lemma NoCycle(s: State, path: seq<nat>)
    requires Inv(s) && WaitPath(s, path) && |path| >= 2
    ensures path[0] != path[|path| - 1]
  {
    hide Inv;
    if path[0] == path[|path| - 1] {
      var again := path + [path[1]];
      assert Edge(s, path, 0);
      assert forall i | 0 <= i < |path| - 1 :: Edge(s, path, i) ==> Edge(s, again, i);
      assert Edge(s, again, |path| - 1);
      WantedIncreases(s, again);
    }
  }

  /** No cycle in the wait-for relation, of whatever length, in any reachable state. */
  lemma WaitForIsAcyclic(s0: State, events: seq<Event>, path: seq<nat>)
    requires Start(s0) && |path| >= 2
    requires WaitPath(Exec(s0, events), path)
    ensures path[0] != path[|path| - 1]
  {
    hide Inv;
    hide WaitPath;
    StartInv(s0);
    ExecKeepsInv(s0, events);
    NoCycle(Exec(s0, events), path);
  }

  lemma HolderAhead(s: State, p: nat, path: seq<nat>)
    requires WaitPath(s, path) && |path| > 0 && WaitsFor(s, p, path[0])
    ensures WaitPath(s, [p] + path)
  {
    forall i | 0 <= i < |path|
      ensures Edge(s, [p] + path, i)
    {
      if i > 0 {
        assert Edge(s, path, i - 1);
      }
    }
  }

  /** From an unfinished request, follow the holders of the rows that are waited for: ids go up, so
      the path ends, and it ends at a request that can step. */
  lemma {:induction false} SomeHolderMoves(s: State, p: nat) returns (path: seq<nat>)
    requires Inv(s) && Unfinished(s, p)
    ensures |path| > 0 && path[0] == p && WaitPath(s, path)
    ensures Unfinished(s, path[|path| - 1]) && Enabled(s, Step(path[|path| - 1]))
    decreases if Blocked(s, p) then |set a | a in s.locks && a >= Wanted(s, p)| + 1 else 0
  {
    hide RequestsCoherent;
    if !Blocked(s, p) {
      path := [p];
    } else {
      var holder := s.locks[Wanted(s, p)];
      assert WaitsFor(s, p, holder);
      HolderIsCoherent(s, p, holder);
      assert Unfinished(s, holder);
      if Blocked(s, holder) {
        WaitsGoUp(s, p, holder, s.locks[Wanted(s, holder)]);
        hide Coherent;
        var above := set a | a in s.locks && a >= Wanted(s, p);
        var higher := set a | a in s.locks && a >= Wanted(s, holder);
        SmallerSet(higher, above, Wanted(s, p));
      }
      hide Coherent;
      hide WaitPath;
      var ahead := SomeHolderMoves(s, holder);
      HolderAhead(s, p, ahead);
      path := [p] + ahead;
    }
  }

  lemma SmallerSet(xs: set<int>, ys: set<int>, y: int)
    requires xs <= ys && y in ys && y !in xs
    ensures |xs| < |ys|
  {
    assert ys == xs + (ys - xs);
    assert y in ys - xs;
  }

  predicate AllDone(s: State) {
    forall p | 0 <= p < |s.requests| :: s.requests[p].stage.Done?
  }

  ghost predicate Stuck(s: State) {
    forall p: nat :: !Enabled(s, Step(p))
  }

  /** Deadlock freedom: a reachable state in which nobody can step is one where everybody is
      finished and no row is locked. */
  lemma NoDeadlock(s0: State, events: seq<Event>)
    requires Start(s0)
    ensures var s := Exec(s0, events); Stuck(s) ==> AllDone(s) && s.locks == map[]
  {
    StartInv(s0);
    ExecKeepsInv(s0, events);
    StuckIsDone(Exec(s0, events));
  }

  lemma DoneHoldsNothing(s: State)
    requires Inv(s) && AllDone(s)
    ensures s.locks == map[]
  {
    assert forall p | 0 <= p < |s.requests| :: s.requests[p].writes == NO_WRITES;
    assert forall a :: a !in s.locks;
  }

  lemma StuckIsDone(s: State)
    requires Inv(s)
    ensures Stuck(s) ==> AllDone(s) && s.locks == map[]
  {
    if Stuck(s) {
      forall p | 0 <= p < |s.requests|
        ensures s.requests[p].stage.Done?
      {
        hide RequestsCoherent;
        if !s.requests[p].stage.Done? {
          var path := SomeHolderMoves(s, p);
        }
      }
      DoneHoldsNothing(s);
    }
  }

  /* ---- Termination ---- */

  function StatementsLeft(stage: Stage): nat {
    match stage
    case CheckFrom => 9
    case CheckTo => 8
    case BeginTx => 7
    case InsertTransfer => 6
    case InsertFromEntry => 5
    case InsertToEntry => 4
    case FirstUpdate => 3
    case SecondUpdate => 2
    case Commit => 1
    case Rollback => 1
    case Done(_) => 0
  }

  /** Upper bound on the statements that all requests together can still execute. */
  function Work(requests: seq<Request>): nat {
    if |requests| == 0 then 0
    else Work(requests[..|requests| - 1]) + StatementsLeft(requests[|requests| - 1].stage)
  }

  lemma {:induction false} WorkUpdate(rs: seq<Request>, p: nat, r: Request)
    requires p < |rs|
    ensures Work(rs[p := r]) == Work(rs) - StatementsLeft(rs[p].stage) + StatementsLeft(r.stage)
  {
    var n := |rs| - 1;
    if p == n {
      assert rs[p := r][..n] == rs[..n];
    } else {
      assert rs[p := r][..n] == rs[..n][p := r];
      WorkUpdate(rs[..n], p, r);
    }
  }

  predicate IsMove(e: Event) {
    e.Step? || e.Fail?
  }

  predicate MovesOn(s: State, s': State, p: nat)
    requires p < |s.requests|
  {
    && p < |s'.requests| && s'.requests == s.requests[p := s'.requests[p]]
    && StatementsLeft(s'.requests[p].stage) < StatementsLeft(s.requests[p].stage)
  }

  lemma FailMovesOn(s: State, p: nat)
    requires Unfinished(s, p)
    ensures MovesOn(s, ExecFail(s, p), p)
  {
  }

  lemma UpdateMovesOn(s: State, p: nat)
    requires Unfinished(s, p) && Updating(s.requests[p])
    ensures MovesOn(s, ExecUpdate(s, p), p)
  {
  }

  lemma StepMovesOn(s: State, p: nat)
    requires Unfinished(s, p)
    ensures MovesOn(s, ExecStep(s, p), p)
  {
    if Updating(s.requests[p]) {
      UpdateMovesOn(s, p);
    }
    hide ExecUpdate;
  }

  lemma MoveDecreasesWork(s: State, e: Event)
    requires IsMove(e) && Enabled(s, e)
    ensures Work(Apply(s, e).requests) < Work(s.requests)
  {
    FailMovesOn(s, e.pid);
    StepMovesOn(s, e.pid);
    hide ExecStep;
    hide ExecFail;
    WorkUpdate(s.requests, e.pid, Apply(s, e).requests[e.pid]);
  }

  /** How many events of the run really moved a request, and how many requests came in. */
  function Moves(s: State, events: seq<Event>): nat {
    if |events| == 0 then 0
    else
      var before := events[..|events| - 1];
      var e := events[|events| - 1];
      Moves(s, before) + (if IsMove(e) && Enabled(Exec(s, before), e) then 1 else 0)
  }

  function Arrivals(events: seq<Event>): nat {
    if |events| == 0 then 0
    else Arrivals(events[..|events| - 1]) + (if events[|events| - 1].Arrive? then 1 else 0)
  }

  lemma OneEventIsBounded(s: State, e: Event)
    ensures Work(Apply(s, e).requests) + (if IsMove(e) && Enabled(s, e) then 1 else 0)
            <= Work(s.requests) + (if e.Arrive? then 9 else 0)
  {
    if IsMove(e) && Enabled(s, e) {
      MoveDecreasesWork(s, e);
    } else if e.Arrive? {
      var s' := Apply(s, e);
      assert s'.requests[..|s'.requests| - 1] == s.requests;
    }
    hide ExecStep;
    hide ExecFail;
  }

  /** However events are scheduled, waits included, all requests together make at most as many moves
      as the statements they had left, and nine for each that arrives. */
  lemma {:induction false} MovesAreBounded(s: State, events: seq<Event>)
    ensures Moves(s, events) + Work(Exec(s, events).requests) <= Work(s.requests) + 9 * Arrivals(events)
  {
    hide Apply;
    hide Enabled;
    hide Work;
    if |events| == 0 {
    } else {
      MovesAreBounded(s, events[..|events| - 1]);
      OneEventIsBounded(Exec(s, events[..|events| - 1]), events[|events| - 1]);
    }
  }

  /** How many events of the run really moved request `p`. */
  function MovesOf(s: State, events: seq<Event>, p: nat): nat {
    if |events| == 0 then 0
    else
      var before := events[..|events| - 1];
      var e := events[|events| - 1];
      MovesOf(s, before, p) + (if IsMove(e) && e.pid == p && Enabled(Exec(s, before), e) then 1 else 0)
  }

  /** Statements that `p` still has before it; all nine when it has not arrived. */
  function Left(s: State, p: nat): nat {
    if p < |s.requests| then StatementsLeft(s.requests[p].stage) else 9
  }

  lemma OneEventMovesOne(s: State, e: Event, p: nat)
    ensures Left(Apply(s, e), p) + (if IsMove(e) && e.pid == p && Enabled(s, e) then 1 else 0) <= Left(s, p)
  {
    if IsMove(e) && Enabled(s, e) {
      FailMovesOn(s, e.pid);
      StepMovesOn(s, e.pid);
    }
    hide ExecStep;
    hide ExecFail;
  }

  /** A single request makes at most nine moves, whatever the others do. */
  lemma {:induction false} OneRequestIsBounded(s: State, events: seq<Event>, p: nat)
    ensures MovesOf(s, events, p) + Left(Exec(s, events), p) <= Left(s, p) <= 9
  {
    hide Apply;
    hide Enabled;
    if |events| == 0 {
    } else {
      hide Left;
      OneRequestIsBounded(s, events[..|events| - 1], p);
      OneEventMovesOne(Exec(s, events[..|events| - 1]), events[|events| - 1], p);
    }
  }

  lemma {:induction false} CallsAhead(rs: seq<Request>)
    requires forall p | 0 <= p < |rs| :: AboutToBegin(rs[p])
    ensures Work(rs) == 7 * |rs|
  {
    if |rs| == 0 {
    } else {
      CallsAhead(rs[..|rs| - 1]);
    }
  }

  /** Every maximal run ends with each request answered and no row locked, after at most nine
      moves for a request of the handler and seven for a direct call. */
  lemma MaximalRunsFinish(s0: State, events: seq<Event>)
    requires Start(s0) && Stuck(Exec(s0, events))
    ensures AllDone(Exec(s0, events)) && Exec(s0, events).locks == map[]
    ensures Moves(s0, events) <= 9 * Arrivals(events) + 7 * |s0.requests|
  {
    NoDeadlock(s0, events);
    MovesAreBounded(s0, events);
    CallsAhead(s0.requests);
  }

  lemma OneMoreStep(s0: State, events: seq<Event>, p: nat)
    requires Enabled(Exec(s0, events), Step(p))
    ensures Work(Exec(s0, events + [Step(p)]).requests) < Work(Exec(s0, events).requests)
  {
    var next := events + [Step(p)];
    assert next[..|next| - 1] == events;
    MoveDecreasesWork(Exec(s0, events), Step(p));
    hide Apply;
    hide Work;
    hide Enabled;
  }

  /** ... and every run can be continued to such an end by its own requests alone. */
  lemma {:induction false} EveryRunCanFinish(s0: State, events: seq<Event>) returns (rest: seq<Event>)
    requires Start(s0)
    ensures forall i | 0 <= i < |rest| :: rest[i].Step?
    ensures Stuck(Exec(s0, events + rest))
    decreases Work(Exec(s0, events).requests)
  {
    hide Start;
    hide Exec;
    hide Work;
    if Stuck(Exec(s0, events)) {
      rest := [];
      assert events + rest == events;
    } else {
      var p: nat :| Enabled(Exec(s0, events), Step(p));
      hide Stuck;
      hide Enabled;
      OneMoreStep(s0, events, p);
      rest := EveryRunCanFinish(s0, events + [Step(p)]);
      assert events + [Step(p)] + rest == events + ([Step(p)] + rest);
      rest := [Step(p)] + rest;
    }
  }
}
