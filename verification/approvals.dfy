/**
 Approval decisions against the mutation table while any number of execute
 handlers, other decisions, timeouts, lost replies and rollbacks interleave.
 One event is one atomic step: a database statement, a handler's run to its
 next await, or a commit. A decision's own writes stay invisible until commit.
 */
module Approvals {
  import opened Wrappers
  import opened BusinessApi

  datatype Status = AwaitingApproval | Approved | Rejected | Executed | Failed

  datatype Verb = Approve | Reject

  datatype Row = Row(
    action: Action, tenantId: string, actor: string, token: Id, key: Id, status: Status, businessRef: Option<Id>)

  datatype DecisionError =
    | NotFound                    // 404
    | MissingPermission           // 403
    | OwnRequest                  // 403
    | AlreadyDecided(seen: Status) // 409
    | ExecuteFailed               // 502
    | ToolMissing
    | Lost                        // timeout, dropped reply, crash or failed commit

  datatype DecisionResult = DecisionResult(mutationStatus: Status, businessRef: Option<Id>)

  datatype Stage =
    | Begun
    | Loaded(snapshot: Row)
    | Claimed(snapshot: Row)
    | Sent(snapshot: Row, exec: nat)
    | Answered(snapshot: Row, exec: nat, ref: Id)
    | Finished(sent: Option<nat>, outcome: Result<DecisionResult, DecisionError>)
  {
    // The claim's UPDATE is uncommitted: the row lock is held.
    predicate Holding() { Claimed? || Sent? || Answered? }

    function SentExec(): Option<nat>
    {
      match this
      case Sent(_, x) => Some(x)
      case Answered(_, x, _) => Some(x)
      case Finished(sent, _) => sent
      case _ => None
    }
  }

  datatype Decision = Decision(
    tenantId: string, approvalId: Id, approver: string, permissions: set<string>, verb: Verb, stage: Stage)

  // Permission each registered tool asks of its approver, if any.
  type Tools = map<Action, Option<string>>

  datatype Config = Config(
    ttl: real, tools: Tools, seedBalances: map<string, int>, seedRequests: seq<LeaveRecord>)

  datatype World = World(
    now: real,
    store: Store,
    execs: seq<Exec>,
    rows: map<Id, Row>,          // committed rows, by approval id
    decisions: seq<Decision>,
    locks: map<Id, nat>,         // row locks: approval id to the decision holding it
    pairs: map<Id, Id>,          // history: the one key the harness made for each token
    atReset: seq<Exec>)          // history: the handlers as the last reset found them

  function Initial(c: Config): World
  {
    World(0.0, Store(map[], map[], c.seedBalances, c.seedRequests, 0), [], map[], [], map[], map[], [])
  }

  // The approver checks of decide_approval.
  function Gate(tools: Tools, row: Row, approver: string, permissions: set<string>): Option<DecisionError>
  {
    var required := if row.action in tools then tools[row.action] else None;
    if required.Some? && required.value !in permissions then Some(MissingPermission)
    else if approver == row.actor then Some(OwnRequest)
    else None
  }

  // What a decision that lost the claim answers, from the row it read beforehand.
  function LostClaim(verb: Verb, seen: Row): Result<DecisionResult, DecisionError>
  {
    if (verb.Approve? && seen.status in {Approved, Executed}) || (verb.Reject? && seen.status.Rejected?) then
      Ok(DecisionResult(seen.status, seen.businessRef))
    else Err(AlreadyDecided(seen.status))
  }

  datatype Event =
    | Tick(elapsed: real)
    | Mutate(tenantId: string, actor: string, params: Params, delivered: bool)
    | StepExec(i: nat)
    | RefuseExec(i: nat)
    | Decide(tenant: string, approvalId: Id, approver: string, permissions: set<string>, verb: Verb)
    | StepDecision(d: nat)
    | AbortDecision(d: nat)
    | Reset

  // The harness previews and, on a clean preview, either executes at once or files a row.
  // `delivered` is false when the preview's reply or the run itself is lost.
  function Mutated(c: Config, w: World, tenantId: string, actor: string, params: Params, delivered: bool): World
  {
    var st := w.store;
    var token, key, approvalId := st.nextId, st.nextId + 1, st.nextId + 2;
    var st' := st.(tokens := st.tokens[token := IssuedEntry(params, tenantId, w.now + c.ttl)], nextId := st.nextId + 3);
    var w' := w.(store := st');
    if !delivered || HasValidationError(st, params) then w'
    else if RequiresApproval(params) then
      var row := Row(ActionOf(params), tenantId, actor, token, key, AwaitingApproval, None);
      w'.(pairs := w.pairs[token := key], rows := w.rows[approvalId := row])
    else
      var req := ExecuteRequest(ActionOf(params), tenantId, token, key, None);
      w'.(pairs := w.pairs[token := key], execs := w.execs + [Arrived(req)])
  }

  function At(w: World, d: nat, stage: Stage): World
    requires d < |w.decisions|
  {
    w.(decisions := w.decisions[d := w.decisions[d].(stage := stage)])
  }

  function WithStatus(rows: map<Id, Row>, a: Id, status: Status): map<Id, Row>
  {
    if a in rows then rows[a := rows[a].(status := status)] else rows
  }

  function WithExecution(rows: map<Id, Row>, a: Id, ref: Id): map<Id, Row>
  {
    if a in rows then rows[a := rows[a].(status := Executed, businessRef := Some(ref))] else rows
  }

  // Ends decision `d`, releasing its row lock; `rows` is what it commits.
  function Ended(w: World, d: nat, rows: map<Id, Row>, outcome: Result<DecisionResult, DecisionError>): World
    requires d < |w.decisions|
  {
    var w' := At(w, d, Finished(w.decisions[d].stage.SentExec(), outcome));
    var freed := if w.decisions[d].stage.Holding() then w.locks - {w.decisions[d].approvalId} else w.locks;
    w'.(locks := freed, rows := rows)
  }

  function RolledBack(w: World, d: nat, error: DecisionError): World
    requires d < |w.decisions|
  {
    Ended(w, d, w.rows, Err(error))
  }

  // One statement of one decision; None when it must wait for a lock or a reply.
  function Decided(c: Config, w: World, d: nat): Option<World>
    requires d < |w.decisions|
  {
    var dec := w.decisions[d];
    var a := dec.approvalId;
    match dec.stage
    case Begun =>
      if a !in w.rows || w.rows[a].tenantId != dec.tenantId then Some(RolledBack(w, d, NotFound))
      else Some(At(w, d, Loaded(w.rows[a])))
    case Loaded(seen) =>
      var refusal := Gate(c.tools, seen, dec.approver, dec.permissions);
      if refusal.Some? then Some(RolledBack(w, d, refusal.value))
      else if a !in w.rows || !w.rows[a].status.AwaitingApproval? then Some(Ended(w, d, w.rows, LostClaim(dec.verb, seen)))
      else if a in w.locks then None
      else Some(At(w, d, Claimed(seen)).(locks := w.locks[a := d]))
    case Claimed(seen) =>
      if dec.verb.Reject? then
        Some(Ended(w, d, WithStatus(w.rows, a, Rejected), Ok(DecisionResult(Rejected, None))))
      else if seen.action !in c.tools then Some(RolledBack(w, d, ToolMissing))
      else
        var req := ExecuteRequest(seen.action, seen.tenantId, seen.token, seen.key, Some(a));
        Some(At(w, d, Sent(seen, |w.execs|)).(execs := w.execs + [Arrived(req)]))
    case Sent(seen, x) =>
      if x >= |w.execs| || !w.execs[x].Done? then None
      else
        (match w.execs[x].reply
         case Ok(resp) => Some(At(w, d, Answered(seen, x, resp.businessRef)))
         case Err(_) => Some(RolledBack(w, d, ExecuteFailed)))
    case Answered(seen, x, ref) =>
      Some(Ended(w, d, WithExecution(w.rows, a, ref), Ok(DecisionResult(Executed, Some(ref)))))
    case Finished(_, _) => None
  }

  function Next(c: Config, w: World, e: Event): Option<World>
  {
    match e
    case Tick(dt) => if dt < 0.0 then None else Some(w.(now := w.now + dt))
    case Mutate(tenantId, actor, params, delivered) => Some(Mutated(c, w, tenantId, actor, params, delivered))
    case StepExec(i) =>
      if i >= |w.execs| || w.execs[i].Done? then None
      else
        var (st, x) := HandlerStep(w.store, w.now, w.execs[i]);
        Some(w.(store := st, execs := w.execs[i := x]))
    case RefuseExec(i) =>
      if i >= |w.execs| || !w.execs[i].Arrived? then None
      else Some(w.(execs := w.execs[i := Done(w.execs[i].req, None, None, Err(Refused))]))
    case Decide(tenantId, a, approver, permissions, verb) =>
      Some(w.(decisions := w.decisions + [Decision(tenantId, a, approver, permissions, verb, Begun)]))
    case StepDecision(d) => if d >= |w.decisions| then None else Decided(c, w, d)
    case AbortDecision(d) =>
      if d >= |w.decisions| || w.decisions[d].stage.Finished? then None else Some(RolledBack(w, d, Lost))
    case Reset =>
      Some(w.(store := w.store.(balances := c.seedBalances, requests := c.seedRequests), atReset := w.execs))
  }

  // The world after a run, if every event in it can happen.
  function Run(c: Config, w: World, events: seq<Event>): Option<World>
  {
    if events == [] then Some(w)
    else
      var before := Run(c, w, events[..|events| - 1]);
      if before.None? then None else Next(c, before.value, events[|events| - 1])
  }
}
