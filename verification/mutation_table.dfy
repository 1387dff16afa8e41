/**
 The mutation table's guarded updates and the decision endpoint as one request
 runs it: the work happens inside a transaction, so an error undoes the
 table's writes and leaves whatever the business side already did.
 */
module MutationTable {
  import opened Wrappers
  import opened BusinessApi
  import opened Approvals

  datatype Fate = Delivered | RequestLost | ReplyLost

  class Table {
    var rows: map<Id, Row>

    constructor ()
      ensures rows == map[]
    {
      rows := map[];
    }

    method GetByApprovalId(tenantId: string, approvalId: Id) returns (row: Option<Row>)
      ensures row == if approvalId in rows && rows[approvalId].tenantId == tenantId then Some(rows[approvalId]) else None
    {
      row := None;
      if approvalId in rows && rows[approvalId].tenantId == tenantId { row := Some(rows[approvalId]); }
    }

    // The guarded UPDATE: it wins only on a row still awaiting approval.
    method TryClaim(tenantId: string, approvalId: Id, status: Status) returns (won: bool)
      modifies this
      ensures won == (approvalId in old(rows) && old(rows)[approvalId].tenantId == tenantId
                      && old(rows)[approvalId].status.AwaitingApproval?)
      ensures rows == if won then WithStatus(old(rows), approvalId, status) else old(rows)
    {
      won := false;
      if approvalId in rows && rows[approvalId].tenantId == tenantId && rows[approvalId].status.AwaitingApproval? {
        rows := rows[approvalId := rows[approvalId].(status := status)];
        won := true;
      }
    }

    method UpdateExecutionResult(tenantId: string, approvalId: Id, status: Status, ref: Option<Id>)
      modifies this
      ensures rows == if approvalId in old(rows) && old(rows)[approvalId].tenantId == tenantId then
                        old(rows)[approvalId := old(rows)[approvalId].(status := status, businessRef := ref)]
                      else old(rows)
    {
      if approvalId in rows && rows[approvalId].tenantId == tenantId {
        rows := rows[approvalId := rows[approvalId].(status := status, businessRef := ref)];
      }
    }
  }

  class Desk {
    const tools: Tools
    const table: Table
    const business: Service

    constructor (tools: Tools, table: Table, business: Service)
      ensures this.tools == tools && this.table == table && this.business == business
    {
      this.tools, this.table, this.business := tools, table, business;
    }

    // decide_approval, inside the transaction.
    method DecideApproval(now: real, tenantId: string, a: Id, approver: string, permissions: set<string>, verb: Verb, fate: Fate)
      returns (r: Result<DecisionResult, DecisionError>)
      requires forall b | b in table.rows && !table.rows[b].status.Executed? :: table.rows[b].businessRef.None?
      modifies table, business`nextId, business.previewTokens`tokens, business.idempotency, business.state
      ensures var row := if a in old(table.rows) && old(table.rows)[a].tenantId == tenantId then Some(old(table.rows)[a]) else None;
              var sent := row.Some? && verb.Approve? && row.value.status.AwaitingApproval?
                          && Gate(tools, row.value, approver, permissions).None? && row.value.action in tools;
              && (!sent || fate.RequestLost? ==> business.View() == old(business.View()))
              && (sent ==>
                    var m := row.value;
                    var req := ExecuteRequest(m.action, m.tenantId, m.token, m.key, Some(a));
                    var (after, handler) := RunAlone(old(business.View()), now, Arrived(req));
                    && (!fate.RequestLost? ==> business.View() == after)
                    && (fate.Delivered? ==>
                          r == if handler.reply.Ok? then Ok(DecisionResult(Executed, Some(handler.reply.value.businessRef)))
                               else Err(ExecuteFailed)))
              && (!sent || !fate.Delivered? ==>
                    r == if row.None? then Err(NotFound)
                         else if Gate(tools, row.value, approver, permissions).Some? then
                           Err(Gate(tools, row.value, approver, permissions).value)
                         else if !row.value.status.AwaitingApproval? then LostClaim(verb, row.value)
                         else if verb.Reject? then Ok(DecisionResult(Rejected, None))
                         else if row.value.action !in tools then Err(ToolMissing)
                         else Err(Lost))
              && (r.Ok? ==> a in table.rows && table.rows == old(table.rows)[a :=
                    old(table.rows)[a].(status := r.value.mutationStatus, businessRef := r.value.businessRef)])
    {
      var found := table.GetByApprovalId(tenantId, a);
      if found.None? { return Err(NotFound); }
      var mutation := found.value;
      var refusal := Gate(tools, mutation, approver, permissions);
      if refusal.Some? { return Err(refusal.value); }

      var won := table.TryClaim(tenantId, a, if verb.Approve? then Approved else Rejected);
      if !won {
        r := LostClaim(verb, mutation);
        return;
      }
      if verb.Reject? { return Ok(DecisionResult(Rejected, None)); }
      if mutation.action !in tools { return Err(ToolMissing); }
      if fate.RequestLost? { return Err(Lost); }

      var req := ExecuteRequest(mutation.action, mutation.tenantId, mutation.token, mutation.key, Some(a));
      var reply := business.Execute(now, req);
      if fate.ReplyLost? { return Err(Lost); }
      if reply.Err? {
        table.UpdateExecutionResult(tenantId, a, Failed, None);
        return Err(ExecuteFailed);
      }
      table.UpdateExecutionResult(tenantId, a, Executed, Some(reply.value.businessRef));
      r := Ok(DecisionResult(Executed, Some(reply.value.businessRef)));
    }

    // approval_decision: the same inside `tenant_session`, which rolls the table back on any error.
    method ApprovalDecision(now: real, tenantId: string, a: Id, approver: string, permissions: set<string>, verb: Verb, fate: Fate)
      returns (r: Result<DecisionResult, DecisionError>)
      requires forall b | b in table.rows && !table.rows[b].status.Executed? :: table.rows[b].businessRef.None?
      modifies table, business`nextId, business.previewTokens`tokens, business.idempotency, business.state
      ensures r.Err? ==> table.rows == old(table.rows)
      ensures r.Ok? ==> a in old(table.rows) && table.rows == old(table.rows)[a :=
                old(table.rows)[a].(status := r.value.mutationStatus, businessRef := r.value.businessRef)]
      ensures r.Ok? ==> r.value.mutationStatus in {Executed, Rejected, Approved}
      ensures verb.Approve? && r.Ok? && old(table.rows)[a].status.AwaitingApproval? ==>
                var m := old(table.rows)[a];
                var req := ExecuteRequest(m.action, m.tenantId, m.token, m.key, Some(a));
                var (after, handler) := RunAlone(old(business.View()), now, Arrived(req));
                && business.View() == after && handler.reply.Ok? && fate.Delivered?
                && r.value == DecisionResult(Executed, Some(handler.reply.value.businessRef))
      ensures verb.Reject? ==> business.View() == old(business.View())
    {
      var before := table.rows;
      r := DecideApproval(now, tenantId, a, approver, permissions, verb, fate);
      if r.Err? { table.rows := before; }
    }
  }

  // Once a request has succeeded, repeating it at any later time answers the same and touches nothing.
  lemma RetryIsSilent(st: Store, now: real, later: real, req: ExecuteRequest)
    requires RunAlone(st, now, Arrived(req)).1.reply.Ok?
    ensures var (after, first) := RunAlone(st, now, Arrived(req));
            var (again, second) := RunAlone(after, later, Arrived(req));
            again == after && second.reply == first.reply
  {
    var (after, first) := RunAlone(st, now, Arrived(req));
    StoresItsReply(st, now, Arrived(req));
    assert HandlerStep(after, later, Arrived(req)) == (after, Done(req, None, None, first.reply));
  }

  lemma {:induction false} StoresItsReply(st: Store, now: real, x: Exec)
    requires !x.Done? && RunAlone(st, now, x).1.reply.Ok?
    ensures var (after, done) := RunAlone(st, now, x);
            var k := (x.req.tenantId, x.req.key);
            k in after.replies && done.reply == Ok(after.replies[k])
    decreases x.StepsLeft()
  {
    var (st', x') := HandlerStep(st, now, x);
    if !x'.Done? {
      StoresItsReply(st', now, x');
    }
  }
}
