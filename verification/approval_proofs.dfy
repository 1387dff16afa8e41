/** Safety of approval decisions over every run of `Approvals.Next`. */
module ApprovalProofs {
  import opened Wrappers
  import opened BusinessApi
  import opened Approvals

  // ---- The invariant -------------------------------------------------------

  // Tokens bind their params, and a handler past `consume` owns its token alone.
  ghost predicate TokenInv(st: Store, execs: seq<Exec>)
  {
    && (forall t | t in st.tokens ::
          var e := st.tokens[t];
          t < st.nextId && e.action == ActionOf(e.params) && e.requiresApproval == RequiresApproval(e.params))
    && (forall i | 0 <= i < |execs| :: ExecInv(st, execs[i]))
    && (forall i, j | 0 <= i < j < |execs| && execs[i].Taken().Some? && execs[j].Taken().Some? ::
          execs[i].req.token != execs[j].req.token)
    && (forall i, j | 0 <= i < j < |execs| && execs[i].Effect().Some? && execs[j].Effect().Some? ::
          execs[i].Effect() != execs[j].Effect())
  }

  ghost predicate ExecInv(st: Store, x: Exec)
  {
    && x.req.token in st.tokens
    && st.tokens[x.req.token].tenantId == x.req.tenantId
    && st.tokens[x.req.token].action == x.req.action
    && (x.Taken().Some? ==> x.Taken().value == st.tokens[x.req.token] && x.Taken().value.consumed)
    && (x.Effect().Some? ==> x.Taken().Some? && x.Effect().value < st.nextId)
    && (x.TokenTaken? || x.Deducted? || x.Effect().Some? ==>
          x.Taken().value.requiresApproval ==> x.req.approvalId.Some?)
    && (x.Deducted? ==> x.entry.params == Leave(x.form))
    && (x.Done? && x.made.Some? ==> x.reply.Ok?)
  }

  // One key per token, everywhere the harness uses either.
  ghost predicate PairInv(tokens: map<Id, PreviewEntry>, nextId: Id, pairs: map<Id, Id>, rows: map<Id, Row>, execs: seq<Exec>)
  {
    && (forall t | t in pairs :: t in tokens && t < nextId && pairs[t] < nextId)
    && (forall t, u | t in pairs && u in pairs && t != u :: pairs[t] != pairs[u])
    && (forall a | a in rows :: a < nextId && RowInv(tokens, pairs, rows[a]))
    && (forall a, b | a in rows && b in rows && a != b :: rows[a].token != rows[b].token)
    && (forall i | 0 <= i < |execs| :: execs[i].req.token in pairs && pairs[execs[i].req.token] == execs[i].req.key)
    && (forall i | 0 <= i < |execs| && execs[i].req.approvalId.Some? ::
          execs[i].req.approvalId.value in rows && execs[i].req.token == rows[execs[i].req.approvalId.value].token)
  }

  ghost predicate RowInv(tokens: map<Id, PreviewEntry>, pairs: map<Id, Id>, row: Row)
  {
    && row.token in pairs && pairs[row.token] == row.key
    && row.token in tokens
    && tokens[row.token].tenantId == row.tenantId
    && tokens[row.token].action == row.action
    && tokens[row.token].requiresApproval
  }

  ghost predicate EffectFor(execs: seq<Exec>, i: nat, tenantId: string, key: Id, ref: Id)
  {
    i < |execs| && execs[i].req.tenantId == tenantId && execs[i].req.key == key && execs[i].Effect() == Some(ref)
  }

  // Every stored or returned reply names the reference of an effect made under its own key.
  ghost predicate ReplyInv(replies: map<(string, Id), ExecuteResponse>, execs: seq<Exec>)
  {
    && (forall k | k in replies :: exists i :: EffectFor(execs, i, k.0, k.1, replies[k].businessRef))
    && (forall j | 0 <= j < |execs| && execs[j].Done? && execs[j].reply.Ok? ::
          exists i :: EffectFor(execs, i, execs[j].req.tenantId, execs[j].req.key, execs[j].reply.value.businessRef))
  }

  ghost predicate SettledInv(rows: map<Id, Row>, execs: seq<Exec>)
  {
    forall a | a in rows :: RowSettled(rows[a], execs)
  }

  ghost predicate RowSettled(row: Row, execs: seq<Exec>)
  {
    match row.status
    case AwaitingApproval => row.businessRef.None?
    case Rejected => row.businessRef.None?
    case Executed =>
      row.businessRef.Some? && exists i :: EffectFor(execs, i, row.tenantId, row.key, row.businessRef.value)
    case _ => false
  }

  predicate SameRequest(r: Row, s: Row)
  {
    r.(status := s.status, businessRef := s.businessRef) == s
  }

  // A row lock is held by exactly the decision whose claim is uncommitted.
  ghost predicate LockInv(rows: map<Id, Row>, locks: map<Id, nat>, decisions: seq<Decision>)
  {
    && (forall a | a in locks ::
          && locks[a] < |decisions| && decisions[locks[a]].approvalId == a && decisions[locks[a]].stage.Holding()
          && a in rows && rows[a].status.AwaitingApproval?)
    && (forall d | 0 <= d < |decisions| && decisions[d].stage.Holding() ::
          decisions[d].approvalId in locks && locks[decisions[d].approvalId] == d)
  }

  ghost predicate StageInv(tools: Tools, rows: map<Id, Row>, execs: seq<Exec>, dec: Decision)
  {
    var a := dec.approvalId;
    && (dec.stage.Holding() ==> Gate(tools, dec.stage.snapshot, dec.approver, dec.permissions).None?)
    && (dec.stage.Loaded? || dec.stage.Holding() ==> a in rows && SameRequest(dec.stage.snapshot, rows[a]))
    && (dec.stage.SentExec().Some? ==> Approving(tools, rows, execs, dec, dec.stage.SentExec().value))
    && (dec.stage.Answered? ==>
          && execs[dec.stage.exec].Done? && execs[dec.stage.exec].reply.Ok?
          && execs[dec.stage.exec].reply.value.businessRef == dec.stage.ref)
    && (dec.stage.Loaded? ==> dec.stage.snapshot.status.AwaitingApproval? || dec.stage.snapshot == rows[a])
    && (dec.stage.Finished? ==> Truthful(rows, execs, a, dec.stage.sent, dec.stage.outcome))
  }

  // A success reports the committed row; a failure after sending was a lost reply or a refused execute.
  ghost predicate Truthful(
    rows: map<Id, Row>, execs: seq<Exec>, a: Id, sent: Option<nat>, outcome: Result<DecisionResult, DecisionError>)
  {
    match outcome
    case Ok(res) =>
      && a in rows && rows[a].status == res.mutationStatus && rows[a].businessRef == res.businessRef
      && !res.mutationStatus.AwaitingApproval? && (sent.Some? ==> res.mutationStatus.Executed?)
    case Err(e) =>
      sent.Some? ==> e.Lost? || (sent.value < |execs| && execs[sent.value].Done? && execs[sent.value].reply.Err?)
  }

  // An approve decision by someone entitled to it sent handler `i`.
  ghost predicate Approving(tools: Tools, rows: map<Id, Row>, execs: seq<Exec>, dec: Decision, i: nat)
  {
    && dec.verb.Approve? && dec.stage.SentExec() == Some(i)
    && i < |execs| && execs[i].req.approvalId == Some(dec.approvalId)
    && dec.approvalId in rows && Gate(tools, rows[dec.approvalId], dec.approver, dec.permissions).None?
  }

  ghost predicate ApprovedBy(tools: Tools, rows: map<Id, Row>, execs: seq<Exec>, decisions: seq<Decision>, d: nat, i: nat)
  {
    d < |decisions| && Approving(tools, rows, execs, decisions[d], i)
  }

  ghost predicate DecisionInv(tools: Tools, rows: map<Id, Row>, execs: seq<Exec>, decisions: seq<Decision>)
  {
    && (forall d | 0 <= d < |decisions| :: StageInv(tools, rows, execs, decisions[d]))
    && (forall i | 0 <= i < |execs| && execs[i].req.approvalId.Some? ::
          exists d :: ApprovedBy(tools, rows, execs, decisions, d, i))
  }

  ghost predicate Inv(c: Config, w: World)
  {
    && TokenInv(w.store, w.execs)
    && PairInv(w.store.tokens, w.store.nextId, w.pairs, w.rows, w.execs)
    && ReplyInv(w.store.replies, w.execs)
    && SettledInv(w.rows, w.execs)
    && LockInv(w.rows, w.locks, w.decisions)
    && DecisionInv(c.tools, w.rows, w.execs, w.decisions)
  }

  // ---- Handlers ------------------------------------------------------------

  // What any step of handler `x` does to the shared store, as the other handlers see it.
  ghost predicate Moves(st: Store, x: Exec, st': Store, x': Exec)
  {
    && x'.req == x.req
    && st.nextId <= st'.nextId
    && st'.tokens.Keys == st.tokens.Keys
    && (forall t | t in st.tokens ::
          && st'.tokens[t] == st.tokens[t].(consumed := st'.tokens[t].consumed)
          && (t != x.req.token || st.tokens[t].consumed ==> st'.tokens[t] == st.tokens[t]))
    && (x.Taken().Some? ==> x'.Taken() == x.Taken())
    && (x.Effect().Some? ==> x'.Effect() == x.Effect())
    && (x.Taken().None? && x'.Taken().Some? ==> x.req.token in st.tokens && !st.tokens[x.req.token].consumed)
    && (x.Effect().None? && x'.Effect().Some? ==> x'.Effect().value == st.nextId)
  }

  lemma HandlerMoves(st: Store, now: real, x: Exec)
    requires !x.Done? && ExecInv(st, x)
    ensures var (st', x') := HandlerStep(st, now, x); Moves(st, x, st', x') && ExecInv(st', x')
  {
  }

  lemma MoveKeepsTokens(st: Store, execs: seq<Exec>, i: nat, st': Store, x': Exec)
    requires TokenInv(st, execs) && i < |execs|
    requires Moves(st, execs[i], st', x') && ExecInv(st', x')
    ensures TokenInv(st', execs[i := x'])
  {
    var execs' := execs[i := x'];
    forall j | 0 <= j < |execs'| ensures ExecInv(st', execs'[j]) {
      assert ExecInv(st, execs[j]);
    }
  }

  lemma MoveKeepsPairs(w: World, i: nat, st': Store, x': Exec)
    requires PairInv(w.store.tokens, w.store.nextId, w.pairs, w.rows, w.execs)
    requires i < |w.execs| && Moves(w.store, w.execs[i], st', x')
    ensures PairInv(st'.tokens, st'.nextId, w.pairs, w.rows, w.execs[i := x'])
  {
    forall a | a in w.rows ensures RowInv(st'.tokens, w.pairs, w.rows[a]) {
      assert RowInv(w.store.tokens, w.pairs, w.rows[a]);
    }
    forall j | 0 <= j < |w.execs| ensures w.execs[i := x'][j].req == w.execs[j].req {}
  }

  lemma MoveKeepsDecisions(tools: Tools, w: World, i: nat, x': Exec)
    requires DecisionInv(tools, w.rows, w.execs, w.decisions)
    requires i < |w.execs| && !w.execs[i].Done? && x'.req == w.execs[i].req
    ensures DecisionInv(tools, w.rows, w.execs[i := x'], w.decisions)
  {
    var execs' := w.execs[i := x'];
    forall d | 0 <= d < |w.decisions| ensures StageInv(tools, w.rows, execs', w.decisions[d]) {
      assert StageInv(tools, w.rows, w.execs, w.decisions[d]);
    }
    forall j | 0 <= j < |execs'| && execs'[j].req.approvalId.Some?
      ensures exists d :: ApprovedBy(tools, w.rows, execs', w.decisions, d, j)
    {
      var d :| ApprovedBy(tools, w.rows, w.execs, w.decisions, d, j);
      assert ApprovedBy(tools, w.rows, execs', w.decisions, d, j);
    }
  }

  // Handlers are never forgotten, and an effect never loses its reference.
  ghost predicate ExecsStay(execs: seq<Exec>, execs': seq<Exec>)
  {
    |execs| <= |execs'| &&
    forall j | 0 <= j < |execs| ::
      execs'[j].req == execs[j].req && (execs[j].Effect().Some? ==> execs'[j].Effect() == execs[j].Effect())
  }

  lemma EffectsStay(execs: seq<Exec>, execs': seq<Exec>)
    requires ExecsStay(execs, execs')
    ensures forall j, tenantId, key, ref | EffectFor(execs, j, tenantId, key, ref) ::
              EffectFor(execs', j, tenantId, key, ref)
  {
  }

  lemma SettledStays(rows: map<Id, Row>, execs: seq<Exec>, execs': seq<Exec>)
    requires SettledInv(rows, execs) && ExecsStay(execs, execs')
    ensures SettledInv(rows, execs')
  {
    EffectsStay(execs, execs');
    forall a | a in rows ensures RowSettled(rows[a], execs') {
      assert RowSettled(rows[a], execs);
    }
  }

  lemma StepKeepsReplies(st: Store, now: real, execs: seq<Exec>, i: nat)
    requires ReplyInv(st.replies, execs) && i < |execs| && !execs[i].Done?
    ensures var (st', x') := HandlerStep(st, now, execs[i]); ReplyInv(st'.replies, execs[i := x'])
  {
    var x := execs[i];
    var (st', x') := HandlerStep(st, now, x);
    EffectsStay(execs, execs[i := x']);
    if x.Recorded? {
      assert EffectFor(execs[i := x'], i, x.req.tenantId, x.req.key, x.ref);
    }
    var k := (x.req.tenantId, x.req.key);
    if x.Arrived? && k in st.replies {
      var j :| EffectFor(execs, j, k.0, k.1, st.replies[k].businessRef);
      assert EffectFor(execs[i := x'], j, k.0, k.1, st.replies[k].businessRef);
    }
  }

  lemma MoveKeepsInv(c: Config, w: World, i: nat, st': Store, x': Exec)
    requires Inv(c, w) && i < |w.execs| && !w.execs[i].Done?
    requires Moves(w.store, w.execs[i], st', x') && ExecInv(st', x')
    requires ReplyInv(st'.replies, w.execs[i := x'])
    ensures Inv(c, w.(store := st', execs := w.execs[i := x']))
  {
    hide TokenInv, PairInv, ReplyInv, SettledInv, DecisionInv, LockInv;
    MoveKeepsTokens(w.store, w.execs, i, st', x');
    MoveKeepsPairs(w, i, st', x');
    MoveKeepsDecisions(c.tools, w, i, x');
    SettledStays(w.rows, w.execs, w.execs[i := x']);
  }

  lemma RefusedReplies(replies: map<(string, Id), ExecuteResponse>, execs: seq<Exec>, i: nat)
    requires ReplyInv(replies, execs) && i < |execs| && execs[i].Arrived?
    ensures ReplyInv(replies, execs[i := Done(execs[i].req, None, None, Err(Refused))])
  {
    EffectsStay(execs, execs[i := Done(execs[i].req, None, None, Err(Refused))]);
  }

  lemma ExecFact(c: Config, w: World, i: nat)
    requires Inv(c, w) && i < |w.execs|
    ensures ExecInv(w.store, w.execs[i])
  {
    hide PairInv, ReplyInv, SettledInv, LockInv, DecisionInv;
  }

  lemma StepExecKeepsInv(c: Config, w: World, i: nat, w': World)
    requires Inv(c, w) && Next(c, w, StepExec(i)) == Some(w')
    ensures Inv(c, w')
  {
    hide TokenInv, PairInv, ReplyInv, SettledInv, LockInv, DecisionInv;
    var (st', x') := HandlerStep(w.store, w.now, w.execs[i]);
    ExecFact(c, w, i);
    HandlerMoves(w.store, w.now, w.execs[i]);
    StepKeepsReplies(w.store, w.now, w.execs, i);
    MoveKeepsInv(c, w, i, st', x');
  }

  lemma EntryFact(c: Config, w: World, t: Id)
    requires Inv(c, w) && t in w.store.tokens
    ensures w.store.tokens[t].requiresApproval == RequiresApproval(w.store.tokens[t].params)
  {
    hide PairInv, ReplyInv, SettledInv, LockInv, DecisionInv;
  }

  lemma RefuseExecKeepsInv(c: Config, w: World, i: nat, w': World)
    requires Inv(c, w) && Next(c, w, RefuseExec(i)) == Some(w')
    ensures Inv(c, w')
  {
    hide TokenInv, PairInv, ReplyInv, SettledInv, LockInv, DecisionInv;
    var x' := w'.execs[i];
    ExecFact(c, w, i);
    RefusedReplies(w.store.replies, w.execs, i);
    assert Moves(w.store, w.execs[i], w.store, x') && ExecInv(w.store, x');
    MoveKeepsInv(c, w, i, w.store, x');
  }

  // ---- Decisions -----------------------------------------------------------

  // A decision that moves without sending anything disturbs no other decision.
  lemma StageKeepsDecisions(tools: Tools, w: World, d: nat, stage: Stage)
    requires DecisionInv(tools, w.rows, w.execs, w.decisions) && d < |w.decisions|
    requires stage.SentExec() == w.decisions[d].stage.SentExec()
    requires StageInv(tools, w.rows, w.execs, w.decisions[d].(stage := stage))
    ensures DecisionInv(tools, w.rows, w.execs, At(w, d, stage).decisions)
  {
    var decisions' := At(w, d, stage).decisions;
    forall i | 0 <= i < |w.execs| && w.execs[i].req.approvalId.Some?
      ensures exists e :: ApprovedBy(tools, w.rows, w.execs, decisions', e, i)
    {
      var e :| ApprovedBy(tools, w.rows, w.execs, w.decisions, e, i);
      assert ApprovedBy(tools, w.rows, w.execs, decisions', e, i);
    }
  }

  // A row's request never changes, and neither does its status once it is settled.
  predicate RowMoves(r: Row, r': Row)
  {
    SameRequest(r, r') && (r.status.AwaitingApproval? || r' == r)
  }

  lemma RowsKeepDecisions(tools: Tools, rows: map<Id, Row>, rows': map<Id, Row>, execs: seq<Exec>, decisions: seq<Decision>)
    requires DecisionInv(tools, rows, execs, decisions)
    requires forall a | a in rows :: a in rows' && RowMoves(rows[a], rows'[a])
    ensures DecisionInv(tools, rows', execs, decisions)
  {
    forall d | 0 <= d < |decisions| ensures StageInv(tools, rows', execs, decisions[d]) {
      assert StageInv(tools, rows, execs, decisions[d]);
    }
    forall i | 0 <= i < |execs| && execs[i].req.approvalId.Some?
      ensures exists d :: ApprovedBy(tools, rows', execs, decisions, d, i)
    {
      var d :| ApprovedBy(tools, rows, execs, decisions, d, i);
      assert ApprovedBy(tools, rows', execs, decisions, d, i);
    }
  }

  lemma RowsKeepPairs(w: World, rows: map<Id, Row>)
    requires PairInv(w.store.tokens, w.store.nextId, w.pairs, w.rows, w.execs)
    requires rows.Keys == w.rows.Keys && forall a | a in rows :: SameRequest(w.rows[a], rows[a])
    ensures PairInv(w.store.tokens, w.store.nextId, w.pairs, rows, w.execs)
  {
    forall a | a in rows ensures RowInv(w.store.tokens, w.pairs, rows[a]) {
      assert RowInv(w.store.tokens, w.pairs, w.rows[a]);
    }
  }

  lemma EndKeepsLocks(w: World, d: nat, rows: map<Id, Row>, outcome: Result<DecisionResult, DecisionError>)
    requires LockInv(w.rows, w.locks, w.decisions) && d < |w.decisions|
    requires rows.Keys == w.rows.Keys
    requires forall a | a in rows && a != w.decisions[d].approvalId :: rows[a] == w.rows[a]
    requires rows == w.rows || w.decisions[d].stage.Holding()
    ensures var w' := Ended(w, d, rows, outcome); LockInv(w'.rows, w'.locks, w'.decisions)
  {
  }

  lemma EndKeepsDecisions(c: Config, w: World, d: nat, rows: map<Id, Row>, outcome: Result<DecisionResult, DecisionError>)
    requires DecisionInv(c.tools, w.rows, w.execs, w.decisions) && d < |w.decisions|
    requires forall a | a in w.rows :: a in rows && RowMoves(w.rows[a], rows[a])
    requires var dec := w.decisions[d]; Truthful(rows, w.execs, dec.approvalId, dec.stage.SentExec(), outcome)
    ensures DecisionInv(c.tools, rows, w.execs, Ended(w, d, rows, outcome).decisions)
  {
    var stage := Finished(w.decisions[d].stage.SentExec(), outcome);
    assert StageInv(c.tools, w.rows, w.execs, w.decisions[d]);
    RowsKeepDecisions(c.tools, w.rows, rows, w.execs, w.decisions);
    StageKeepsDecisions(c.tools, w.(rows := rows), d, stage);
  }

  // Decision `d` ends: its lock goes, and at most its own row moves on.
  lemma EndKeepsInv(c: Config, w: World, d: nat, rows: map<Id, Row>, outcome: Result<DecisionResult, DecisionError>)
    requires Inv(c, w) && d < |w.decisions|
    requires rows.Keys == w.rows.Keys
    requires forall a | a in rows :: RowMoves(w.rows[a], rows[a])
    requires forall a | a in rows && a != w.decisions[d].approvalId :: rows[a] == w.rows[a]
    requires rows == w.rows || w.decisions[d].stage.Holding()
    requires SettledInv(rows, w.execs)
    requires var dec := w.decisions[d]; Truthful(rows, w.execs, dec.approvalId, dec.stage.SentExec(), outcome)
    ensures Inv(c, Ended(w, d, rows, outcome))
  {
    hide TokenInv, PairInv, ReplyInv, SettledInv, DecisionInv, LockInv;
    EndKeepsDecisions(c, w, d, rows, outcome);
    RowsKeepPairs(w, rows);
    EndKeepsLocks(w, d, rows, outcome);
  }

  lemma RollbackKeepsInv(c: Config, w: World, d: nat, error: DecisionError)
    requires Inv(c, w) && d < |w.decisions|
    requires Truthful(w.rows, w.execs, w.decisions[d].approvalId, w.decisions[d].stage.SentExec(), Err(error))
    ensures Inv(c, RolledBack(w, d, error))
  {
    EndKeepsInv(c, w, d, w.rows, Err(error));
  }

  lemma StageFact(c: Config, w: World, d: nat)
    requires Inv(c, w) && d < |w.decisions|
    ensures StageInv(c.tools, w.rows, w.execs, w.decisions[d])
  {
    hide TokenInv, PairInv, ReplyInv, SettledInv, LockInv;
  }

  lemma HeldRow(c: Config, w: World, d: nat)
    requires Inv(c, w) && d < |w.decisions| && w.decisions[d].stage.Holding()
    ensures var a := w.decisions[d].approvalId;
            a in w.rows && w.rows[a].status.AwaitingApproval? && RowInv(w.store.tokens, w.pairs, w.rows[a])
  {
    hide TokenInv, ReplyInv, SettledInv, DecisionInv;
  }

  lemma SettledExcept(rows: map<Id, Row>, a: Id, row: Row, execs: seq<Exec>)
    requires SettledInv(rows, execs) && RowSettled(row, execs)
    ensures SettledInv(rows[a := row], execs)
  {
    forall b | b in rows && b != a ensures RowSettled(rows[b], execs) {}
  }

  lemma FreeStageKeepsLocks(w: World, d: nat, stage: Stage)
    requires LockInv(w.rows, w.locks, w.decisions) && d < |w.decisions|
    requires stage.Holding() == w.decisions[d].stage.Holding()
    ensures LockInv(w.rows, w.locks, At(w, d, stage).decisions)
  {
  }

  lemma RowFact(c: Config, w: World, a: Id)
    requires Inv(c, w) && a in w.rows
    ensures RowInv(w.store.tokens, w.pairs, w.rows[a]) && RowSettled(w.rows[a], w.execs)
    ensures forall b | b in w.rows && w.rows[b].token == w.rows[a].token :: b == a
  {
    hide TokenInv, ReplyInv, LockInv, DecisionInv;
  }

  lemma BegunKeepsInv(c: Config, w: World, d: nat, w': World)
    requires Inv(c, w) && d < |w.decisions| && w.decisions[d].stage.Begun? && Decided(c, w, d) == Some(w')
    ensures Inv(c, w')
  {
    hide TokenInv, PairInv, ReplyInv, SettledInv, LockInv, DecisionInv;
    var a := w.decisions[d].approvalId;
    if a !in w.rows || w.rows[a].tenantId != w.decisions[d].tenantId {
      RollbackKeepsInv(c, w, d, NotFound);
    } else {
      StageKeepsDecisions(c.tools, w, d, Loaded(w.rows[a]));
      FreeStageKeepsLocks(w, d, Loaded(w.rows[a]));
    }
  }

  lemma LoadedKeepsInv(c: Config, w: World, d: nat, w': World)
    requires Inv(c, w) && d < |w.decisions| && w.decisions[d].stage.Loaded? && Decided(c, w, d) == Some(w')
    ensures Inv(c, w')
  {
    hide TokenInv, PairInv, ReplyInv, SettledInv, LockInv, DecisionInv;
    var dec := w.decisions[d];
    var refusal := Gate(c.tools, dec.stage.snapshot, dec.approver, dec.permissions);
    StageFact(c, w, d);
    if refusal.Some? {
      RollbackKeepsInv(c, w, d, refusal.value);
    } else if !w.rows[dec.approvalId].status.AwaitingApproval? {
      EndKeepsInv(c, w, d, w.rows, LostClaim(dec.verb, dec.stage.snapshot));
    } else {
      ClaimKeepsInv(c, w, d);
    }
  }

  lemma ClaimKeepsLocks(w: World, d: nat)
    requires LockInv(w.rows, w.locks, w.decisions) && d < |w.decisions| && w.decisions[d].stage.Loaded?
    requires var a := w.decisions[d].approvalId; a in w.rows && w.rows[a].status.AwaitingApproval? && a !in w.locks
    ensures var dec := w.decisions[d];
            LockInv(w.rows, w.locks[dec.approvalId := d], At(w, d, Claimed(dec.stage.snapshot)).decisions)
  {
  }

  lemma ClaimKeepsInv(c: Config, w: World, d: nat)
    requires Inv(c, w) && d < |w.decisions| && w.decisions[d].stage.Loaded?
    requires var dec := w.decisions[d];
             && Gate(c.tools, dec.stage.snapshot, dec.approver, dec.permissions).None?
             && dec.approvalId in w.rows && w.rows[dec.approvalId].status.AwaitingApproval? && dec.approvalId !in w.locks
    ensures var dec := w.decisions[d];
            Inv(c, At(w, d, Claimed(dec.stage.snapshot)).(locks := w.locks[dec.approvalId := d]))
  {
    hide TokenInv, PairInv, ReplyInv, SettledInv, LockInv, DecisionInv;
    StageFact(c, w, d);
    ClaimKeepsLocks(w, d);
    StageKeepsDecisions(c.tools, w, d, Claimed(w.decisions[d].stage.snapshot));
  }

  lemma AppendKeepsStores(w: World, req: ExecuteRequest)
    requires TokenInv(w.store, w.execs) && ReplyInv(w.store.replies, w.execs) && SettledInv(w.rows, w.execs)
    requires ExecInv(w.store, Arrived(req))
    ensures var execs := w.execs + [Arrived(req)];
            TokenInv(w.store, execs) && ReplyInv(w.store.replies, execs) && SettledInv(w.rows, execs)
  {
    EffectsStay(w.execs, w.execs + [Arrived(req)]);
    SettledStays(w.rows, w.execs, w.execs + [Arrived(req)]);
  }

  lemma AppendKeepsDecisions(tools: Tools, w: World, req: ExecuteRequest)
    requires DecisionInv(tools, w.rows, w.execs, w.decisions)
    ensures var execs := w.execs + [Arrived(req)];
            && (forall d | 0 <= d < |w.decisions| :: StageInv(tools, w.rows, execs, w.decisions[d]))
            && forall i | 0 <= i < |w.execs| && execs[i].req.approvalId.Some? ::
                 exists d :: ApprovedBy(tools, w.rows, execs, w.decisions, d, i)
  {
    var execs := w.execs + [Arrived(req)];
    forall d | 0 <= d < |w.decisions| ensures StageInv(tools, w.rows, execs, w.decisions[d]) {
      assert StageInv(tools, w.rows, w.execs, w.decisions[d]);
    }
    forall i | 0 <= i < |w.execs| && execs[i].req.approvalId.Some?
      ensures exists d :: ApprovedBy(tools, w.rows, execs, w.decisions, d, i)
    {
      var d :| ApprovedBy(tools, w.rows, w.execs, w.decisions, d, i);
      assert ApprovedBy(tools, w.rows, execs, w.decisions, d, i);
    }
  }

  lemma SendKeepsDecisions(tools: Tools, w: World, d: nat, req: ExecuteRequest)
    requires DecisionInv(tools, w.rows, w.execs, w.decisions) && d < |w.decisions|
    requires w.decisions[d].stage.Claimed? && w.decisions[d].verb.Approve?
    requires req.approvalId == Some(w.decisions[d].approvalId)
    ensures DecisionInv(tools, w.rows, w.execs + [Arrived(req)],
                        At(w, d, Sent(w.decisions[d].stage.snapshot, |w.execs|)).decisions)
  {
    var execs := w.execs + [Arrived(req)];
    var decisions := At(w, d, Sent(w.decisions[d].stage.snapshot, |w.execs|)).decisions;
    AppendKeepsDecisions(tools, w, req);
    assert StageInv(tools, w.rows, execs, w.decisions[d]);
    assert StageInv(tools, w.rows, execs, decisions[d]);
    forall i | 0 <= i < |execs| && execs[i].req.approvalId.Some?
      ensures exists e :: ApprovedBy(tools, w.rows, execs, decisions, e, i)
    {
      if i == |w.execs| {
        assert ApprovedBy(tools, w.rows, execs, decisions, d, i);
      } else {
        var e :| ApprovedBy(tools, w.rows, execs, w.decisions, e, i);
        assert ApprovedBy(tools, w.rows, execs, decisions, e, i);
      }
    }
  }

  lemma ClaimedKeepsInv(c: Config, w: World, d: nat, w': World)
    requires Inv(c, w) && d < |w.decisions| && w.decisions[d].stage.Claimed? && Decided(c, w, d) == Some(w')
    ensures Inv(c, w')
  {
    hide TokenInv, PairInv, ReplyInv, SettledInv, LockInv, DecisionInv;
    var dec := w.decisions[d];
    var a := dec.approvalId;
    StageFact(c, w, d);
    HeldRow(c, w, d);
    if dec.verb.Reject? {
      RowFact(c, w, a);
      SettledExcept(w.rows, a, w.rows[a].(status := Rejected), w.execs);
      EndKeepsInv(c, w, d, WithStatus(w.rows, a, Rejected), Ok(DecisionResult(Rejected, None)));
    } else if dec.stage.snapshot.action !in c.tools {
      RollbackKeepsInv(c, w, d, ToolMissing);
    } else {
      SendKeepsInv(c, w, d);
    }
  }

  lemma SendKeepsInv(c: Config, w: World, d: nat)
    requires Inv(c, w) && d < |w.decisions| && w.decisions[d].stage.Claimed? && w.decisions[d].verb.Approve?
    requires RowInv(w.store.tokens, w.pairs, w.decisions[d].stage.snapshot)
    ensures var dec := w.decisions[d];
            var seen := dec.stage.snapshot;
            var req := ExecuteRequest(seen.action, seen.tenantId, seen.token, seen.key, Some(dec.approvalId));
            Inv(c, At(w, d, Sent(seen, |w.execs|)).(execs := w.execs + [Arrived(req)]))
  {
    hide TokenInv, PairInv, ReplyInv, SettledInv, LockInv, DecisionInv;
    var dec := w.decisions[d];
    var seen := dec.stage.snapshot;
    var req := ExecuteRequest(seen.action, seen.tenantId, seen.token, seen.key, Some(dec.approvalId));
    StageFact(c, w, d);
    HeldRow(c, w, d);
    FreeStageKeepsLocks(w, d, Sent(seen, |w.execs|));
    SendKeepsPairs(w, req);
    AppendKeepsStores(w, req);
    SendKeepsDecisions(c.tools, w, d, req);
  }

  lemma SendKeepsPairs(w: World, req: ExecuteRequest)
    requires PairInv(w.store.tokens, w.store.nextId, w.pairs, w.rows, w.execs)
    requires req.token in w.pairs && w.pairs[req.token] == req.key
    requires req.approvalId.Some? ==> req.approvalId.value in w.rows && req.token == w.rows[req.approvalId.value].token
    ensures PairInv(w.store.tokens, w.store.nextId, w.pairs, w.rows, w.execs + [Arrived(req)])
  {
  }

  lemma SentKeepsInv(c: Config, w: World, d: nat, w': World)
    requires Inv(c, w) && d < |w.decisions| && w.decisions[d].stage.Sent? && Decided(c, w, d) == Some(w')
    ensures Inv(c, w')
  {
    hide TokenInv, PairInv, ReplyInv, SettledInv, LockInv, DecisionInv;
    var dec := w.decisions[d];
    StageFact(c, w, d);
    match w.execs[dec.stage.exec].reply {
      case Ok(resp) =>
        var stage := Answered(dec.stage.snapshot, dec.stage.exec, resp.businessRef);
        StageKeepsDecisions(c.tools, w, d, stage);
        FreeStageKeepsLocks(w, d, stage);
      case Err(_) => RollbackKeepsInv(c, w, d, ExecuteFailed);
    }
  }

  lemma AnsweredEffect(c: Config, w: World, d: nat) returns (i: nat)
    requires Inv(c, w) && d < |w.decisions| && w.decisions[d].stage.Answered?
    ensures var dec := w.decisions[d];
            dec.approvalId in w.rows &&
            EffectFor(w.execs, i, w.rows[dec.approvalId].tenantId, w.rows[dec.approvalId].key, dec.stage.ref)
  {
    hide SettledInv, LockInv, DecisionInv;
    var dec := w.decisions[d];
    StageFact(c, w, d);
    HeldRow(c, w, d);
    var x := w.execs[dec.stage.exec];
    assert ExecInv(w.store, x);
    i :| EffectFor(w.execs, i, x.req.tenantId, x.req.key, dec.stage.ref);
  }

  lemma AnsweredKeepsInv(c: Config, w: World, d: nat, w': World)
    requires Inv(c, w) && d < |w.decisions| && w.decisions[d].stage.Answered? && Decided(c, w, d) == Some(w')
    ensures Inv(c, w')
  {
    hide TokenInv, PairInv, ReplyInv, SettledInv, LockInv, DecisionInv;
    var a, ref := w.decisions[d].approvalId, w.decisions[d].stage.ref;
    StageFact(c, w, d);
    HeldRow(c, w, d);
    var i := AnsweredEffect(c, w, d);
    var row := w.rows[a].(status := Executed, businessRef := Some(ref));
    assert EffectFor(w.execs, i, row.tenantId, row.key, ref);
    SettledExcept(w.rows, a, row, w.execs);
    EndKeepsInv(c, w, d, WithExecution(w.rows, a, ref), Ok(DecisionResult(Executed, Some(ref))));
  }

  lemma DecideKeepsInv(c: Config, w: World, dec: Decision)
    requires Inv(c, w) && dec.stage.Begun?
    ensures Inv(c, w.(decisions := w.decisions + [dec]))
  {
    hide TokenInv, PairInv, ReplyInv, SettledInv;
    var decisions := w.decisions + [dec];
    forall i | 0 <= i < |w.execs| && w.execs[i].req.approvalId.Some?
      ensures exists d :: ApprovedBy(c.tools, w.rows, w.execs, decisions, d, i)
    {
      var d :| ApprovedBy(c.tools, w.rows, w.execs, w.decisions, d, i);
      assert ApprovedBy(c.tools, w.rows, w.execs, decisions, d, i);
    }
  }

  // ---- New mutations -------------------------------------------------------

  lemma IssueKeepsTokens(st: Store, execs: seq<Exec>, entry: PreviewEntry, nextId: Id)
    requires TokenInv(st, execs) && st.nextId < nextId
    requires entry.action == ActionOf(entry.params) && entry.requiresApproval == RequiresApproval(entry.params)
    ensures TokenInv(st.(tokens := st.tokens[st.nextId := entry], nextId := nextId), execs)
    ensures st.nextId !in st.tokens
  {
    var st' := st.(tokens := st.tokens[st.nextId := entry], nextId := nextId);
    forall j | 0 <= j < |execs| ensures ExecInv(st', execs[j]) {
      assert ExecInv(st, execs[j]);
    }
  }

  lemma IssueKeepsPairs(w: World, entry: PreviewEntry, nextId: Id)
    requires PairInv(w.store.tokens, w.store.nextId, w.pairs, w.rows, w.execs)
    requires w.store.nextId < nextId && w.store.nextId !in w.store.tokens
    ensures PairInv(w.store.tokens[w.store.nextId := entry], nextId, w.pairs, w.rows, w.execs)
    ensures w.store.nextId !in w.pairs && forall t | t in w.pairs :: w.pairs[t] < w.store.nextId
    ensures forall a | a in w.rows :: a < w.store.nextId
  {
    var tokens := w.store.tokens[w.store.nextId := entry];
    forall a | a in w.rows ensures RowInv(tokens, w.pairs, w.rows[a]) {
      assert RowInv(w.store.tokens, w.pairs, w.rows[a]);
    }
  }

  predicate FreshPair(w: World, token: Id, key: Id)
  {
    && token in w.store.tokens && token < w.store.nextId && key < w.store.nextId
    && token !in w.pairs && forall t | t in w.pairs :: w.pairs[t] != key
  }

  lemma FileKeepsPairs(w: World, approvalId: Id, row: Row)
    requires PairInv(w.store.tokens, w.store.nextId, w.pairs, w.rows, w.execs)
    requires FreshPair(w, row.token, row.key) && approvalId < w.store.nextId && approvalId !in w.rows
    requires var pairs := w.pairs[row.token := row.key]; RowInv(w.store.tokens, pairs, row)
    ensures PairInv(w.store.tokens, w.store.nextId, w.pairs[row.token := row.key], w.rows[approvalId := row], w.execs)
  {
    var pairs, rows := w.pairs[row.token := row.key], w.rows[approvalId := row];
    forall a | a in rows ensures RowInv(w.store.tokens, pairs, rows[a]) {
      if a != approvalId {
        assert RowInv(w.store.tokens, w.pairs, w.rows[a]);
      }
    }
    forall a | a in w.rows ensures w.rows[a].token != row.token {
      assert RowInv(w.store.tokens, w.pairs, w.rows[a]);
    }
  }

  lemma FileKeepsInv(c: Config, w: World, approvalId: Id, row: Row)
    requires Inv(c, w) && FreshPair(w, row.token, row.key) && approvalId < w.store.nextId && approvalId !in w.rows
    requires row.status.AwaitingApproval? && row.businessRef.None?
    requires var pairs := w.pairs[row.token := row.key]; RowInv(w.store.tokens, pairs, row)
    ensures Inv(c, w.(pairs := w.pairs[row.token := row.key], rows := w.rows[approvalId := row]))
  {
    var rows := w.rows[approvalId := row];
    hide TokenInv, ReplyInv, DecisionInv, PairInv;
    FileKeepsPairs(w, approvalId, row);
    RowsKeepDecisions(c.tools, w.rows, rows, w.execs, w.decisions);
    forall a | a in rows ensures RowSettled(rows[a], w.execs) {
      if a != approvalId {
        assert RowSettled(w.rows[a], w.execs);
      }
    }
  }

  lemma DirectKeepsPairs(w: World, req: ExecuteRequest)
    requires PairInv(w.store.tokens, w.store.nextId, w.pairs, w.rows, w.execs)
    requires FreshPair(w, req.token, req.key) && req.approvalId.None?
    ensures PairInv(w.store.tokens, w.store.nextId, w.pairs[req.token := req.key], w.rows, w.execs + [Arrived(req)])
  {
    var pairs := w.pairs[req.token := req.key];
    forall a | a in w.rows ensures RowInv(w.store.tokens, pairs, w.rows[a]) {
      assert RowInv(w.store.tokens, w.pairs, w.rows[a]);
    }
  }

  lemma DirectKeepsInv(c: Config, w: World, req: ExecuteRequest)
    requires Inv(c, w) && FreshPair(w, req.token, req.key) && req.approvalId.None?
    requires ExecInv(w.store, Arrived(req))
    ensures Inv(c, w.(pairs := w.pairs[req.token := req.key], execs := w.execs + [Arrived(req)]))
  {
    hide TokenInv, PairInv, ReplyInv, SettledInv, LockInv;
    DirectKeepsPairs(w, req);
    AppendKeepsStores(w, req);
    AppendKeepsDecisions(c.tools, w, req);
  }

  // The world once the preview's token is stored and three ids are drawn.
  function Previewed(c: Config, w: World, tenantId: string, params: Params): World
  {
    var entry := IssuedEntry(params, tenantId, w.now + c.ttl);
    w.(store := w.store.(tokens := w.store.tokens[w.store.nextId := entry], nextId := w.store.nextId + 3))
  }

  lemma PreviewKeepsInv(c: Config, w: World, tenantId: string, params: Params)
    requires Inv(c, w)
    ensures var w1 := Previewed(c, w, tenantId, params);
            Inv(c, w1) && FreshPair(w1, w.store.nextId, w.store.nextId + 1) && w.store.nextId + 2 !in w.rows
  {
    hide TokenInv, PairInv, ReplyInv, SettledInv, LockInv, DecisionInv;
    var entry := IssuedEntry(params, tenantId, w.now + c.ttl);
    IssueKeepsTokens(w.store, w.execs, entry, w.store.nextId + 3);
    IssueKeepsPairs(w, entry, w.store.nextId + 3);
  }

  lemma MutateKeepsInv(c: Config, w: World, tenantId: string, actor: string, params: Params, delivered: bool)
    requires Inv(c, w)
    ensures Inv(c, Mutated(c, w, tenantId, actor, params, delivered))
  {
    hide TokenInv, PairInv, ReplyInv, SettledInv, LockInv, DecisionInv;
    var token, key, approvalId := w.store.nextId, w.store.nextId + 1, w.store.nextId + 2;
    var w1 := Previewed(c, w, tenantId, params);
    PreviewKeepsInv(c, w, tenantId, params);
    if !delivered || HasValidationError(w.store, params) {
    } else if RequiresApproval(params) {
      FileKeepsInv(c, w1, approvalId, Row(ActionOf(params), tenantId, actor, token, key, AwaitingApproval, None));
    } else {
      DirectKeepsInv(c, w1, ExecuteRequest(ActionOf(params), tenantId, token, key, None));
    }
  }

  // ---- Every run -----------------------------------------------------------

  lemma NextKeepsInv(c: Config, w: World, e: Event, w': World)
    requires Inv(c, w) && Next(c, w, e) == Some(w')
    ensures Inv(c, w')
  {
    match e {
      case Tick(_) =>
      case Reset => ResetKeepsInv(c, w, w');
      case Mutate(tenantId, actor, params, delivered) => MutateKeepsInv(c, w, tenantId, actor, params, delivered);
      case StepExec(i) => StepExecKeepsInv(c, w, i, w');
      case RefuseExec(i) => RefuseExecKeepsInv(c, w, i, w');
      case Decide(tenantId, a, approver, permissions, verb) =>
        DecideKeepsInv(c, w, Decision(tenantId, a, approver, permissions, verb, Begun));
      case AbortDecision(d) => RollbackKeepsInv(c, w, d, Lost);
      case StepDecision(d) =>
        match w.decisions[d].stage {
          case Begun => BegunKeepsInv(c, w, d, w');
          case Loaded(_) => LoadedKeepsInv(c, w, d, w');
          case Claimed(_) => ClaimedKeepsInv(c, w, d, w');
          case Sent(_, _) => SentKeepsInv(c, w, d, w');
          case Answered(_, _, _) => AnsweredKeepsInv(c, w, d, w');
          case Finished(_, _) => assert false;
        }
    }
  }

  lemma ResetKeepsInv(c: Config, w: World, w': World)
    requires Inv(c, w) && Next(c, w, Reset) == Some(w')
    ensures Inv(c, w')
  {
    hide ReplyInv, SettledInv, DecisionInv, LockInv, PairInv;
    forall j | 0 <= j < |w.execs| ensures ExecInv(w'.store, w.execs[j]) {
      assert ExecInv(w.store, w.execs[j]);
    }
  }

  lemma {:induction false} RunKeepsInv(c: Config, events: seq<Event>, w: World)
    requires Run(c, Initial(c), events) == Some(w)
    ensures Inv(c, w)
  {
    if events != [] {
      var before := Run(c, Initial(c), events[..|events| - 1]).value;
      RunKeepsInv(c, events[..|events| - 1], before);
      NextKeepsInv(c, before, events[|events| - 1], w);
    }
  }

  // ---- Main results --------------------------------------------------------

  predicate EffectBegun(x: Exec)
  {
    x.Deducted? || x.Effect().Some?
  }

  // Whatever is retried, lost, rolled back or raced, one token makes at most one effect.
  lemma OneEffectPerToken(c: Config, events: seq<Event>, w: World, i: nat, j: nat)
    requires Run(c, Initial(c), events) == Some(w)
    requires i < |w.execs| && j < |w.execs| && EffectBegun(w.execs[i]) && EffectBegun(w.execs[j])
    requires w.execs[i].req.token == w.execs[j].req.token
    ensures i == j
  {
    RunKeepsInv(c, events, w);
    hide PairInv, ReplyInv, SettledInv, LockInv, DecisionInv;
    assert ExecInv(w.store, w.execs[i]) && ExecInv(w.store, w.execs[j]);
  }

  // A committed row is awaiting, rejected or executed, and executed carries its own effect's reference.
  lemma ExecutedRowHasItsEffect(c: Config, events: seq<Event>, w: World, a: Id) returns (i: nat)
    requires Run(c, Initial(c), events) == Some(w) && a in w.rows
    ensures w.rows[a].status in {AwaitingApproval, Rejected, Executed}
    ensures w.rows[a].status.Executed? ==>
              && i < |w.execs| && w.execs[i].req.token == w.rows[a].token && w.execs[i].Effect() == w.rows[a].businessRef
              && w.rows[a].businessRef.Some?
  {
    RunKeepsInv(c, events, w);
    RowFact(c, w, a);
    i := 0;
    if w.rows[a].status.Executed? {
      i :| EffectFor(w.execs, i, w.rows[a].tenantId, w.rows[a].key, w.rows[a].businessRef.value);
    }
  }

  // All successful replies under one key agree, first answers and replays alike.
  lemma RepliesAgree(c: Config, events: seq<Event>, w: World, i: nat, j: nat)
    requires Run(c, Initial(c), events) == Some(w)
    requires i < |w.execs| && j < |w.execs| && w.execs[i].req.key == w.execs[j].req.key
    requires w.execs[i].Done? && w.execs[i].reply.Ok? && w.execs[j].Done? && w.execs[j].reply.Ok?
    ensures w.execs[i].reply.value.businessRef == w.execs[j].reply.value.businessRef
  {
    RunKeepsInv(c, events, w);
    var k :| EffectFor(w.execs, k, w.execs[i].req.tenantId, w.execs[i].req.key, w.execs[i].reply.value.businessRef);
    var l :| EffectFor(w.execs, l, w.execs[j].req.tenantId, w.execs[j].req.key, w.execs[j].reply.value.businessRef);
    OneEffectPerToken(c, events, w, k, l);
  }

  // Every payroll adjustment and every leave of more than five days that took effect was sent by an approve decision of
  // somebody else, who held the permission its tool asks for.
  lemma ApprovedBySomeoneElse(c: Config, events: seq<Event>, w: World, i: nat) returns (d: nat)
    requires Run(c, Initial(c), events) == Some(w)
    requires i < |w.execs| && EffectBegun(w.execs[i])
    ensures w.execs[i].req.token in w.store.tokens
    ensures var params := w.store.tokens[w.execs[i].req.token].params;
            params.Payroll? || params.form.leaveDays > 5 ==>
              && d < |w.decisions|
              && var dec := w.decisions[d];
                 && dec.verb.Approve? && dec.stage.SentExec() == Some(i)
                 && w.execs[i].req.approvalId == Some(dec.approvalId) && dec.approvalId in w.rows
                 && var row := w.rows[dec.approvalId];
                    && row.token == w.execs[i].req.token && dec.approver != row.actor
                    && row.action == (if params.Payroll? then AdjustPayroll else SubmitLeaveRequest)
                    && (row.action in c.tools && c.tools[row.action].Some? ==> c.tools[row.action].value in dec.permissions)
  {
    hide PairInv, ReplyInv, SettledInv, LockInv, DecisionInv;
    RunKeepsInv(c, events, w);
    ExecFact(c, w, i);
    var token := w.execs[i].req.token;
    d := 0;
    if w.store.tokens[token].params.Payroll? || w.store.tokens[token].params.form.leaveDays > 5 {
      EntryFact(c, w, token);
      d := SentByAnApprove(c, w, i);
      PairFact(c, w, i);
      ActionFact(c, w, token, w.decisions[d].approvalId);
    }
  }

  lemma SentByAnApprove(c: Config, w: World, i: nat) returns (d: nat)
    requires Inv(c, w) && i < |w.execs| && w.execs[i].req.approvalId.Some?
    ensures ApprovedBy(c.tools, w.rows, w.execs, w.decisions, d, i)
  {
    hide TokenInv, PairInv, ReplyInv, SettledInv, LockInv, StageInv, Approving, Gate;
    d :| ApprovedBy(c.tools, w.rows, w.execs, w.decisions, d, i);
  }

  lemma ActionFact(c: Config, w: World, token: Id, a: Id)
    requires Inv(c, w) && a in w.rows && token in w.store.tokens && w.rows[a].token == token
    ensures w.rows[a].action == ActionOf(w.store.tokens[token].params)
  {
    hide ReplyInv, SettledInv, LockInv, DecisionInv, ExecInv;
  }

  // What the harness makes of a preview: nothing when it was refused or lost, a request for approval for payroll and for a
  // leave of more than five days, an execute at once for a shorter one. The token is issued in every case.
  lemma PreviewDecides(c: Config, w: World, e: Event, w': World)
    requires e.Mutate? && Next(c, w, e) == Some(w')
    ensures var (params, n) := (e.params, w.store.nextId);
            var action := if params.Payroll? then AdjustPayroll else SubmitLeaveRequest;
            var risky := params.Payroll? || params.form.leaveDays > 5;
            var balances := w.store.balances;
            var short := params.Leave?
                         && params.form.leaveDays > if params.form.employeeId in balances then balances[params.form.employeeId] else 0;
            && w'.store == w.store.(tokens := w.store.tokens[n := PreviewEntry(action, params, e.tenantId, risky, w.now + c.ttl, false)],
                                    nextId := n + 3)
            && w'.decisions == w.decisions
            && (!e.delivered || short ==> w'.rows == w.rows && w'.execs == w.execs)
            && (e.delivered && !short && risky ==>
                  w'.execs == w.execs
                  && w'.rows == w.rows[n + 2 := Row(action, e.tenantId, e.actor, n, n + 1, AwaitingApproval, None)])
            && (e.delivered && !short && !risky ==>
                  w'.rows == w.rows && w'.execs == w.execs + [Arrived(ExecuteRequest(action, e.tenantId, n, n + 1, None))])
  {
  }

  // Nothing else ever waits for an approver: every request filed is for payroll or a leave of more than five days.
  lemma OnlyRiskyRequestsWait(c: Config, events: seq<Event>, w: World, a: Id)
    requires Run(c, Initial(c), events) == Some(w) && a in w.rows
    ensures w.rows[a].token in w.store.tokens
    ensures var params := w.store.tokens[w.rows[a].token].params;
            && (params.Payroll? || params.form.leaveDays > 5)
            && w.rows[a].action == if params.Payroll? then AdjustPayroll else SubmitLeaveRequest
  {
    hide Run, Inv;
    RunKeepsInv(c, events, w);
    RowFact(c, w, a);
    EntryFact(c, w, w.rows[a].token);
    ActionFact(c, w, w.rows[a].token, a);
  }

  // Who may decide: the approver must hold the permission the tool asks for and not be the one who asked. Each refusal has
  // its own answer, writes nothing, and there is no other.
  lemma DecisionIsGated(c: Config, events: seq<Event>, w: World, d: nat, w': World)
    requires Run(c, Initial(c), events) == Some(w) && d < |w.decisions| && w.decisions[d].stage.Loaded?
    requires Next(c, w, StepDecision(d)) == Some(w')
    ensures var (dec, stage) := (w.decisions[d], w'.decisions[d].stage);
            && dec.approvalId in w.rows
            && var row := w.rows[dec.approvalId];
               var needed := if row.action in c.tools then c.tools[row.action] else None;
               var lacks := needed.Some? && needed.value !in dec.permissions;
               && (stage == Finished(None, Err(MissingPermission)) <==> lacks)
               && (stage == Finished(None, Err(OwnRequest)) <==> !lacks && dec.approver == row.actor)
               && (stage == Claimed(dec.stage.snapshot) <==> !lacks && dec.approver != row.actor && row.status.AwaitingApproval?)
               && w'.rows == w.rows && w'.execs == w.execs && w'.store == w.store
  {
    hide TokenInv, PairInv, ReplyInv, SettledInv, LockInv, DecisionInv, Run, Truthful, Approving;
    RunKeepsInv(c, events, w);
    StageFact(c, w, d);
  }

  // A row that reads rejected although its effect was made: the approve that made it was lost, never answered.
  lemma RejectedEffectWasLost(c: Config, events: seq<Event>, w: World, a: Id, i: nat) returns (d: nat)
    requires Run(c, Initial(c), events) == Some(w) && a in w.rows && w.rows[a].status.Rejected?
    requires i < |w.execs| && w.execs[i].req.token == w.rows[a].token && w.execs[i].Effect().Some?
    ensures d < |w.decisions| && w.decisions[d].approvalId == a
    ensures w.decisions[d].stage == Finished(Some(i), Err(Lost))
  {
    hide Inv, Run, Gate, SameRequest;
    RunKeepsInv(c, events, w);
    RowFact(c, w, a);
    ExecFact(c, w, i);
    d := SentByAnApprove(c, w, i);
    PairFact(c, w, i);
    StageFact(c, w, d);
    if w.decisions[d].stage.Holding() {
      HeldRow(c, w, d);
    }
  }

  ghost predicate EffectOn(w: World, a: Id, i: int)
    requires a in w.rows
  {
    0 <= i < |w.execs| && w.execs[i].req.token == w.rows[a].token && w.execs[i].Effect().Some?
  }

  // Where a handler stands: it consumed its token and is past its writes, answered or about to answer.
  predicate PastItsWrites(x: Exec)
  {
    x.Recorded? || (x.Done? && x.taken.Some?)
  }

  // An approve of `a` that sent handler `i`, which went past its writes, and was rolled back for want of an answer.
  predicate LostAfterWrites(w: World, a: Id, d: int, i: int)
  {
    && 0 <= d < |w.decisions| && w.decisions[d].approvalId == a
    && 0 <= i < |w.execs| && w.decisions[d].stage == Finished(Some(i), Err(Lost)) && PastItsWrites(w.execs[i])
  }

  // So a rejected request had an effect exactly when such an approve exists.
  lemma RejectedEffectExactly(c: Config, events: seq<Event>, w: World, a: Id)
    requires Run(c, Initial(c), events) == Some(w) && a in w.rows && w.rows[a].status.Rejected?
    ensures (exists i :: EffectOn(w, a, i)) <==> (exists d, i :: LostAfterWrites(w, a, d, i))
  {
    hide Run, Inv;
    if i :| EffectOn(w, a, i) {
      var d := RejectedEffectWasLost(c, events, w, a, i);
      RunKeepsInv(c, events, w);
      ExecFact(c, w, i);
      assert LostAfterWrites(w, a, d, i);
    }
    if d, i :| LostAfterWrites(w, a, d, i) {
      SentForTheRow(c, events, w, d, i);
      ConsumersMakeTheirEffect(c, events, w);
      assert MadeItsEffect(w.execs[i]);
      assert EffectOn(w, a, i);
    }
  }

  // A handler with an approval id that consumed its token does not finish without its effect.
  predicate MadeItsEffect(x: Exec)
  {
    x.Done? && x.taken.Some? && x.req.approvalId.Some? ==> x.made.Some?
  }

  lemma {:induction false} ConsumersMakeTheirEffect(c: Config, events: seq<Event>, w: World)
    requires Run(c, Initial(c), events) == Some(w)
    ensures forall x <- w.execs :: MadeItsEffect(x)
  {
    if events != [] {
      var before := Run(c, Initial(c), events[..|events| - 1]).value;
      ConsumersMakeTheirEffect(c, events[..|events| - 1], before);
      NextMakesEffects(c, before, events[|events| - 1], w);
    }
  }

  lemma StepMakesEffect(st: Store, now: real, x: Exec)
    requires !x.Done?
    ensures MadeItsEffect(HandlerStep(st, now, x).1)
  {}

  lemma NextMakesEffects(c: Config, w: World, e: Event, w': World)
    requires Next(c, w, e) == Some(w') && forall x <- w.execs :: MadeItsEffect(x)
    ensures forall x <- w'.execs :: MadeItsEffect(x)
  {
    hide Next, MadeItsEffect;
    forall x | x in w'.execs ensures MadeItsEffect(x) {
      if x !in w.execs { Newcomer(c, w, e, w', x); }
    }
  }

  lemma Newcomer(c: Config, w: World, e: Event, w': World, x: Exec)
    requires Next(c, w, e) == Some(w') && x in w'.execs && x !in w.execs
    ensures MadeItsEffect(x)
  {
    hide HandlerStep, Gate, LostClaim, HasValidationError, IssuedEntry;
    if e.StepExec? {
      StepMakesEffect(w.store, w.now, w.execs[e.i]);
    }
  }

  // The execute a decision sends is on its own row's token.
  lemma SentForTheRow(c: Config, events: seq<Event>, w: World, d: nat, i: nat)
    requires Run(c, Initial(c), events) == Some(w)
    requires d < |w.decisions| && w.decisions[d].stage.SentExec() == Some(i)
    ensures i < |w.execs| && w.decisions[d].approvalId in w.rows
    ensures w.execs[i].req.approvalId == Some(w.decisions[d].approvalId)
    ensures w.execs[i].req.token == w.rows[w.decisions[d].approvalId].token
  {
    hide TokenInv, PairInv, ReplyInv, SettledInv, LockInv, DecisionInv, Run, ExecInv;
    RunKeepsInv(c, events, w);
    StageFact(c, w, d);
    PairFact(c, w, i);
  }

  lemma PairFact(c: Config, w: World, i: nat)
    requires Inv(c, w) && i < |w.execs|
    ensures w.execs[i].req.approvalId.Some? && w.execs[i].req.approvalId.value in w.rows ==>
              w.execs[i].req.token == w.rows[w.execs[i].req.approvalId.value].token
  {
    hide TokenInv, ReplyInv, SettledInv, LockInv, DecisionInv;
  }

  // A decision that loses the claim succeeds quietly exactly when the row it had read was already settled
  // its way; one that read the row while the winner was still uncommitted gets the conflict.
  lemma LoserAnswer(c: Config, events: seq<Event>, w: World, d: nat, w': World)
    requires Run(c, Initial(c), events) == Some(w)
    requires d < |w.decisions| && w.decisions[d].stage.Loaded?
    requires w.decisions[d].approvalId in w.rows && !w.rows[w.decisions[d].approvalId].status.AwaitingApproval?
    requires Decided(c, w, d) == Some(w') && Gate(c.tools, w.decisions[d].stage.snapshot, w.decisions[d].approver,
                                                   w.decisions[d].permissions).None?
    ensures var dec := w.decisions[d];
            var row := w.rows[dec.approvalId];
            && w'.rows == w.rows && w'.decisions[d].stage.Finished?
            && w'.decisions[d].stage.outcome ==
                 if dec.stage.snapshot == row && (dec.verb.Approve? <==> row.status.Executed?) then
                   Ok(DecisionResult(row.status, row.businessRef))
                 else Err(AlreadyDecided(dec.stage.snapshot.status))
  {
    hide TokenInv, PairInv, ReplyInv, SettledInv, LockInv, DecisionInv;
    RunKeepsInv(c, events, w);
    StageFact(c, w, d);
    RowFact(c, w, w.decisions[d].approvalId);
  }

  // Nothing ever changes a settled row.
  lemma SettledRowIsFinal(c: Config, events: seq<Event>, w: World, e: Event, w': World, a: Id)
    requires Run(c, Initial(c), events) == Some(w) && Next(c, w, e) == Some(w')
    requires a in w.rows && !w.rows[a].status.AwaitingApproval?
    ensures a in w'.rows && w'.rows[a] == w.rows[a]
  {
    hide TokenInv, PairInv, ReplyInv, SettledInv, LockInv, DecisionInv;
    RunKeepsInv(c, events, w);
    RowBound(c, w, a);
    if e.StepDecision? && w.decisions[e.d].stage.Holding() {
      HeldRow(c, w, e.d);
    }
  }

  lemma RowBound(c: Config, w: World, a: Id)
    requires Inv(c, w) && a in w.rows
    ensures a < w.store.nextId
  {
    hide TokenInv, ReplyInv, SettledInv, LockInv, DecisionInv;
  }

  // What a successful decision answered stays the committed outcome.
  lemma AnswersAreTruthful(c: Config, events: seq<Event>, w: World, d: nat)
    requires Run(c, Initial(c), events) == Some(w)
    requires d < |w.decisions| && w.decisions[d].stage.Finished? && w.decisions[d].stage.outcome.Ok?
    ensures var dec := w.decisions[d];
            && dec.approvalId in w.rows
            && w.rows[dec.approvalId].status == dec.stage.outcome.value.mutationStatus
            && w.rows[dec.approvalId].businessRef == dec.stage.outcome.value.businessRef
  {
    hide TokenInv, PairInv, ReplyInv, SettledInv, LockInv, DecisionInv;
    RunKeepsInv(c, events, w);
    StageFact(c, w, d);
  }

  // One more event on a run.
  lemma Then(c: Config, events: seq<Event>, w: World, e: Event) returns (events': seq<Event>, w': World)
    requires Run(c, Initial(c), events) == Some(w) && Next(c, w, e).Some?
    ensures Next(c, w, e) == Some(w') && Run(c, Initial(c), events') == Some(w')
  {
    events', w' := events + [e], Next(c, w, e).value;
    assert (events + [e])[..|events|] == events;
  }

  // A request for six days, waiting for its approval.
  lemma SixDaysAsked() returns (c: Config, events: seq<Event>, w: World)
    ensures Run(c, Initial(c), events) == Some(w)
    ensures w.rows == map[2 := Row(SubmitLeaveRequest, "t", "actor", 0, 1, AwaitingApproval, None)]
    ensures w.execs == [] && w.decisions == [] && w.locks == map[] && w.now == 0.0
    ensures w.store.tokens == map[0 := PreviewEntry(SubmitLeaveRequest, Leave(LeaveForm("emp", 6, 0)), "t", true, 300.0, false)]
    ensures w.store.replies == map[] && c.tools == map[SubmitLeaveRequest := None]
  {
    c := Config(300.0, map[SubmitLeaveRequest := None], map["emp" := 8], []);
    events, w := [], Initial(c);
    events, w := Then(c, events, w, Mutate("t", "actor", Leave(LeaveForm("emp", 6, 0)), true));
  }

  // An approve of it that has sent its execute.
  lemma SixDaysSent() returns (c: Config, events: seq<Event>, w: World)
    ensures Run(c, Initial(c), events) == Some(w)
    ensures w.rows == map[2 := Row(SubmitLeaveRequest, "t", "actor", 0, 1, AwaitingApproval, None)]
    ensures w.execs == [Arrived(ExecuteRequest(SubmitLeaveRequest, "t", 0, 1, Some(2)))]
    ensures w.store.tokens == map[0 := PreviewEntry(SubmitLeaveRequest, Leave(LeaveForm("emp", 6, 0)), "t", true, 300.0, false)]
    ensures w.store.replies == map[] && w.now == 0.0
    ensures |w.decisions| == 1 && w.decisions[0].stage.Sent? && w.decisions[0].approvalId == 2
    ensures w.locks == map[2 := 0] && c.tools == map[SubmitLeaveRequest := None]
  {
    hide Mutated, HandlerStep;
    c, events, w := SixDaysAsked();
    events, w := Then(c, events, w, Decide("t", 2, "boss", {}, Approve));
    events, w := Then(c, events, w, StepDecision(0));
    events, w := Then(c, events, w, StepDecision(0));
    events, w := Then(c, events, w, StepDecision(0));
  }

  // The same request once the handler has made its effect, its reply still on the way.
  lemma EffectBeforeReply() returns (c: Config, events: seq<Event>, w: World)
    ensures Run(c, Initial(c), events) == Some(w)
    ensures w.rows == map[2 := Row(SubmitLeaveRequest, "t", "actor", 0, 1, AwaitingApproval, None)]
    ensures |w.execs| == 1 && w.execs[0].req.token == 0 && w.execs[0].Effect().Some?
    ensures |w.decisions| == 1 && w.decisions[0].stage.Sent? && w.decisions[0].approvalId == 2
    ensures w.locks == map[2 := 0] && c.tools == map[SubmitLeaveRequest := None]
  {
    c, events, w := SixDaysSent();
    events, w := Then(c, events, w, StepExec(0));
    events, w := Then(c, events, w, StepExec(0));
    events, w := Then(c, events, w, StepExec(0));
    events, w := Then(c, events, w, StepExec(0));
  }

  // "A rejected request had no effect" fails: the approve's reply is lost after the effect, then a reject wins.
  lemma RejectedAfterEffect() returns (c: Config, events: seq<Event>, w: World)
    ensures Run(c, Initial(c), events) == Some(w)
    ensures 2 in w.rows && w.rows[2].status.Rejected?
    ensures |w.execs| == 1 && w.execs[0].req.token == w.rows[2].token && w.execs[0].Effect().Some?
  {
    c, events, w := EffectBeforeReply();
    events, w := Then(c, events, w, AbortDecision(0));
    events, w := Then(c, events, w, Decide("t", 2, "boss", {}, Reject));
    events, w := Then(c, events, w, StepDecision(1));
    events, w := Then(c, events, w, StepDecision(1));
    events, w := Then(c, events, w, StepDecision(1));
  }
}
