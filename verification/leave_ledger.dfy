/** Leave balances and recorded requests over every run of `Approvals.Next`. */
module LeaveLedger {
  import opened Wrappers
  import opened Sums
  import opened BusinessApi
  import opened Approvals
  import P = ApprovalProofs

  function DaysFor(form: LeaveForm, emp: string): int
  {
    if form.employeeId == emp then form.leaveDays else 0
  }

  function DaysRecorded(emp: string): LeaveRecord -> int
  {
    (r: LeaveRecord) => DaysFor(r.form, emp)
  }

  function DaysDeducted(emp: string): Exec -> int
  {
    (x: Exec) => if x.Deducted? then DaysFor(x.form, emp) else 0
  }

  // Days on the books for one employee.
  function RecordedDays(requests: seq<LeaveRecord>, emp: string): int
  {
    Sum(requests, DaysRecorded(emp))
  }

  // Days one employee has lost to handlers that have deducted and not yet recorded.
  function PendingDays(execs: seq<Exec>, emp: string): int
  {
    Sum(execs, DaysDeducted(emp))
  }

  // Balance and books agree, up to the handlers a reset caught between deducting and recording.
  predicate Balanced(c: Config, w: World, emp: string)
  {
    BalanceOf(w.store.balances, emp) ==
      BalanceOf(c.seedBalances, emp) - (RecordedDays(w.store.requests, emp) - RecordedDays(c.seedRequests, emp))
      - PendingDays(w.execs, emp) + PendingDays(w.atReset, emp)
  }

  lemma StepExecBalanced(c: Config, w: World, i: nat, st': Store, x': Exec, emp: string)
    requires Balanced(c, w, emp) && i < |w.execs| && !w.execs[i].Done?
    requires (st', x') == HandlerStep(w.store, w.now, w.execs[i])
    ensures Balanced(c, w.(store := st', execs := w.execs[i := x']), emp)
  {
    SumUpdate(w.execs, i, x', DaysDeducted(emp));
    if w.execs[i].Deducted? {
      SumAppend(w.store.requests, st'.requests[|w.store.requests|], DaysRecorded(emp));
    }
  }

  ghost predicate AtMostOneMore(execs: seq<Exec>, execs': seq<Exec>)
  {
    execs' == execs || exists x: Exec :: x.Arrived? && execs' == execs + [x]
  }

  lemma DecidedSpawns(c: Config, w: World, d: nat, w': World)
    requires d < |w.decisions| && Decided(c, w, d) == Some(w')
    ensures w'.store == w.store && w'.atReset == w.atReset
    ensures w.decisions[d].stage.Claimed? || w'.execs == w.execs
    ensures w'.execs == w.execs || (exists req :: w'.execs == w.execs + [Arrived(req)])
  {
    hide Gate, LostClaim, WithStatus, WithExecution, At, Ended, RolledBack;
    KeepingStores(w, d);
  }

  lemma KeepingStores(w: World, d: nat)
    requires d < |w.decisions|
    ensures forall stage :: SameEffects(w, At(w, d, stage))
    ensures forall rows, outcome :: SameEffects(w, Ended(w, d, rows, outcome))
    ensures forall error :: SameEffects(w, RolledBack(w, d, error))
  {
  }

  predicate SameEffects(w: World, w': World)
  {
    w'.store == w.store && w'.atReset == w.atReset && w'.execs == w.execs
  }

  lemma OthersSpawn(c: Config, w: World, e: Event, w': World)
    requires Next(c, w, e) == Some(w') && !e.StepExec? && !e.RefuseExec? && !e.Reset?
    ensures w'.store.balances == w.store.balances && w'.store.requests == w.store.requests
    ensures w'.store.nextId >= w.store.nextId && w'.atReset == w.atReset && AtMostOneMore(w.execs, w'.execs)
  {
    hide Decided;
    if e.StepDecision? {
      DecidedSpawns(c, w, e.d, w');
    }
  }

  lemma NextBalanced(c: Config, w: World, e: Event, w': World, emp: string)
    requires Balanced(c, w, emp) && Next(c, w, e) == Some(w')
    ensures Balanced(c, w', emp)
  {
    if e.StepExec? {
      StepExecBalanced(c, w, e.i, w'.store, w'.execs[e.i], emp);
    } else if e.RefuseExec? {
      SumUpdate(w.execs, e.i, w'.execs[e.i], DaysDeducted(emp));
    } else if !e.Reset? {
      OthersSpawn(c, w, e, w');
      if w'.execs != w.execs {
        var x: Exec :| x.Arrived? && w'.execs == w.execs + [x];
        SumAppend(w.execs, x, DaysDeducted(emp));
      }
    }
  }

  lemma {:induction false} RunBalanced(c: Config, events: seq<Event>, w: World, emp: string)
    requires Run(c, Initial(c), events) == Some(w)
    ensures Balanced(c, w, emp)
  {
    if events != [] {
      var before := Run(c, Initial(c), events[..|events| - 1]).value;
      RunBalanced(c, events[..|events| - 1], before, emp);
      NextBalanced(c, before, events[|events| - 1], w, emp);
    }
  }

  // The books promise seed - recorded - in flight; they keep it exactly when the last reset
  // caught no handler of this employee between its deduction and its record.
  lemma BooksBalanceUnlessResetMidway(c: Config, events: seq<Event>, w: World, emp: string)
    requires Run(c, Initial(c), events) == Some(w)
    ensures BalanceOf(w.store.balances, emp) ==
              BalanceOf(c.seedBalances, emp) - (RecordedDays(w.store.requests, emp) - RecordedDays(c.seedRequests, emp))
              - PendingDays(w.execs, emp)
            <==> forall i | 0 <= i < |w.atReset| && w.atReset[i].Deducted? :: w.atReset[i].form.employeeId != emp
  {
    RunBalanced(c, events, w, emp);
    NothingPending(w.atReset, emp);
  }

  lemma {:induction false} NothingPending(execs: seq<Exec>, emp: string)
    ensures PendingDays(execs, emp) >= 0
    ensures PendingDays(execs, emp) == 0 <==>
              forall i | 0 <= i < |execs| && execs[i].Deducted? :: execs[i].form.employeeId != emp
  {
    if execs != [] {
      var n := |execs| - 1;
      NothingPending(execs[..n], emp);
      assert forall i | 0 <= i < n :: execs[..n][i] == execs[i];
    }
  }

  // ---- What each recorded request came from --------------------------------

  ghost predicate CameFrom(rec: LeaveRecord, x: Exec)
  {
    x.Effect() == Some(rec.requestId) && x.Taken().Some? && x.Taken().value.params == Leave(rec.form)
    && x.req.approvalId == rec.approvalId
  }

  ghost predicate Sourced(c: Config, w: World)
  {
    && |c.seedRequests| <= |w.store.requests| && w.store.requests[..|c.seedRequests|] == c.seedRequests
    && (forall k | |c.seedRequests| <= k < |w.store.requests| ::
          w.store.requests[k].requestId < w.store.nextId && HasSource(w, k))
    && (forall k, l | |c.seedRequests| <= k < l < |w.store.requests| ::
          w.store.requests[k].requestId != w.store.requests[l].requestId)
  }

  ghost predicate HasSource(w: World, k: nat)
  {
    exists i :: SourceAt(w, k, i)
  }

  ghost predicate SourceAt(w: World, k: nat, i: nat)
  {
    k < |w.store.requests| && i < |w.execs| && CameFrom(w.store.requests[k], w.execs[i])
  }

  lemma SourcesStay(c: Config, w: World, w': World)
    requires Sourced(c, w) && w'.store.requests == w.store.requests && w.store.nextId <= w'.store.nextId
    requires |w.execs| <= |w'.execs|
    requires forall i | 0 <= i < |w.execs| && w.execs[i].Effect().Some? ::
               w'.execs[i].req == w.execs[i].req && w'.execs[i].Taken() == w.execs[i].Taken()
               && w'.execs[i].Effect() == w.execs[i].Effect()
    requires forall i | 0 <= i < |w.execs| && w.execs[i].Effect().Some? :: w.execs[i].Taken().Some?
    ensures Sourced(c, w')
  {
    forall k: nat | |c.seedRequests| <= k < |w'.store.requests| ensures HasSource(w', k) {
      assert HasSource(w, k);
      var i :| SourceAt(w, k, i);
      assert SourceAt(w', k, i);
    }
  }

  lemma NextSourced(c: Config, w: World, e: Event, w': World)
    requires P.Inv(c, w) && Sourced(c, w) && Next(c, w, e) == Some(w')
    ensures Sourced(c, w')
  {
    hide P.PairInv, P.ReplyInv, P.SettledInv, P.LockInv, P.DecisionInv, P.TokenInv;
    forall i | 0 <= i < |w.execs| ensures P.ExecInv(w.store, w.execs[i]) {
      P.ExecFact(c, w, i);
    }
    if e.StepExec? {
      StepSourced(c, w, e.i, w'.store, w'.execs[e.i]);
    } else if e.RefuseExec? {
      SourcesStay(c, w, w');
    } else if !e.Reset? {
      OthersSpawn(c, w, e, w');
      SourcesStay(c, w, w');
    }
  }

  lemma StepSourced(c: Config, w: World, i: nat, st': Store, x': Exec)
    requires Sourced(c, w) && i < |w.execs| && !w.execs[i].Done?
    requires forall j | 0 <= j < |w.execs| :: P.ExecInv(w.store, w.execs[j])
    requires (st', x') == HandlerStep(w.store, w.now, w.execs[i])
    ensures Sourced(c, w.(store := st', execs := w.execs[i := x']))
  {
    var w' := w.(store := st', execs := w.execs[i := x']);
    SourcesStay(c, w, w'.(store := st'.(requests := w.store.requests)));
    if w.execs[i].Deducted? {
      var n := |w.store.requests|;
      assert SourceAt(w', n, i);
      forall k: nat | |c.seedRequests| <= k < n ensures HasSource(w', k) {
        assert HasSource(w, k);
        var j :| SourceAt(w, k, j);
        assert SourceAt(w', k, j);
      }
    }
  }

  lemma {:induction false} RunSourced(c: Config, events: seq<Event>, w: World)
    requires Run(c, Initial(c), events) == Some(w)
    ensures Sourced(c, w)
  {
    if events != [] {
      var before := Run(c, Initial(c), events[..|events| - 1]).value;
      RunSourced(c, events[..|events| - 1], before);
      P.RunKeepsInv(c, events[..|events| - 1], before);
      NextSourced(c, before, events[|events| - 1], w);
    }
  }

  // Every recorded request is what one consumed token was previewed for, and above the
  // threshold it names the approval that released it.
  lemma RequestsArePreviewed(c: Config, events: seq<Event>, w: World, k: nat) returns (i: nat)
    requires Run(c, Initial(c), events) == Some(w) && |c.seedRequests| <= k < |w.store.requests|
    ensures i < |w.execs| && w.execs[i].req.token in w.store.tokens
    ensures var entry := w.store.tokens[w.execs[i].req.token];
            && entry.consumed && entry.params == Leave(w.store.requests[k].form)
            && w.execs[i].Effect() == Some(w.store.requests[k].requestId)
            && w.execs[i].req.approvalId == w.store.requests[k].approvalId
    ensures w.store.requests[k].form.leaveDays > 5 ==>
              var a := w.store.requests[k].approvalId; a.Some? && a.value in w.rows && w.rows[a.value].token == w.execs[i].req.token
  {
    hide P.PairInv, P.ReplyInv, P.SettledInv, P.LockInv, P.DecisionInv, P.TokenInv;
    RunSourced(c, events, w);
    P.RunKeepsInv(c, events, w);
    assert HasSource(w, k);
    i :| SourceAt(w, k, i);
    P.ExecFact(c, w, i);
    P.EntryFact(c, w, w.execs[i].req.token);
    if w.store.requests[k].form.leaveDays > 5 {
      var _ := P.ApprovedBySomeoneElse(c, events, w, i);
    }
  }

  lemma RequestsUseDistinctTokens(c: Config, events: seq<Event>, w: World, k: nat, l: nat, i: nat, j: nat)
    requires Run(c, Initial(c), events) == Some(w)
    requires |c.seedRequests| <= k < l < |w.store.requests| && i < |w.execs| && j < |w.execs|
    requires w.execs[i].Effect() == Some(w.store.requests[k].requestId)
    requires w.execs[j].Effect() == Some(w.store.requests[l].requestId)
    ensures w.execs[i].req.token != w.execs[j].req.token
  {
    RunSourced(c, events, w);
    if w.execs[i].req.token == w.execs[j].req.token {
      P.OneEffectPerToken(c, events, w, i, j);
    }
  }
}
