/**
 The business side of a two-phase mutation: single-use preview tokens, the
 replay map, leave balances, and the preview/execute handlers for leave and
 payroll. `HandlerStep` is one handler advanced to its next await point; the
 classes below it are the stores and handlers as the service runs them.
 */
module BusinessApi {
  import opened Wrappers

  // Tokens, idempotency keys, references and approval ids are UUIDs: numbers drawn from one counter.
  type Id = nat
  type LeaveDays = d: int | 0 < d witness 1

  const LEAVE_DAYS_HIGH_RISK_THRESHOLD: int := 5

  datatype Action = SubmitLeaveRequest | AdjustPayroll

  datatype LeaveForm = LeaveForm(employeeId: string, leaveDays: LeaveDays, startDate: int)

  datatype Params = Leave(form: LeaveForm) | Payroll(employeeId: string, adjustmentPercent: real, reason: string)

  datatype PreviewEntry = PreviewEntry(
    action: Action, params: Params, tenantId: string, requiresApproval: bool, expiresAt: real, consumed: bool)

  datatype LeaveRecord = LeaveRecord(requestId: Id, form: LeaveForm, approvalId: Option<Id>)

  datatype ExecuteResponse = ExecuteResponse(action: Action, businessRef: Id)

  datatype ApiError =
    | Refused              // injected failure or failed authorization, before any store is touched
    | InvalidToken         // 400
    | WrongAction          // 400
    | TokenAlreadyUsed     // 409
    | TokenExpired         // 410
    | ApprovalIdRequired   // 400

  datatype ExecuteRequest = ExecuteRequest(
    action: Action, tenantId: string, token: Id, key: Id, approvalId: Option<Id>)

  // Every store the execute handlers touch, plus the id counter.
  datatype Store = Store(
    tokens: map<Id, PreviewEntry>,
    replies: map<(string, Id), ExecuteResponse>,
    balances: map<string, int>,
    requests: seq<LeaveRecord>,
    nextId: Id)

  function ActionOf(params: Params): Action
  {
    if params.Leave? then SubmitLeaveRequest else AdjustPayroll
  }

  predicate RequiresApproval(params: Params)
  {
    match params
    case Leave(form) => form.leaveDays > LEAVE_DAYS_HIGH_RISK_THRESHOLD
    case Payroll(_, _, _) => true
  }

  function BalanceOf(balances: map<string, int>, employeeId: string): int
  {
    if employeeId in balances then balances[employeeId] else 0
  }

  // The preview's validation error; payroll has none.
  predicate HasValidationError(st: Store, params: Params)
  {
    params.Leave? && params.form.leaveDays > BalanceOf(st.balances, params.form.employeeId)
  }

  function IssuedEntry(params: Params, tenantId: string, expiresAt: real): PreviewEntry
  {
    PreviewEntry(ActionOf(params), params, tenantId, RequiresApproval(params), expiresAt, false)
  }

  // What `consume` returns; on success the stored entry is replaced by the returned one.
  function ConsumeToken(tokens: map<Id, PreviewEntry>, now: real, token: Id, tenantId: string, action: Action)
    : (r: Result<PreviewEntry, ApiError>)
  {
    if token !in tokens || tokens[token].tenantId != tenantId then Err(InvalidToken)
    else if tokens[token].action != action then Err(WrongAction)
    else if tokens[token].consumed then Err(TokenAlreadyUsed)
    else if now > tokens[token].expiresAt then Err(TokenExpired)
    else Ok(tokens[token].(consumed := true))
  }

  // One execute handler, by the await it has reached.
  datatype Exec =
    | Arrived(req: ExecuteRequest)
    | KeyMissed(req: ExecuteRequest)
    | TokenTaken(req: ExecuteRequest, entry: PreviewEntry)
    | Deducted(req: ExecuteRequest, entry: PreviewEntry, form: LeaveForm)
    | Recorded(req: ExecuteRequest, entry: PreviewEntry, ref: Id)
    | Done(req: ExecuteRequest, taken: Option<PreviewEntry>, made: Option<Id>,
           reply: Result<ExecuteResponse, ApiError>)
  {
    // The token entry this handler consumed, if it has.
    function Taken(): Option<PreviewEntry>
    {
      match this
      case Arrived(_) => None
      case KeyMissed(_) => None
      case TokenTaken(_, e) => Some(e)
      case Deducted(_, e, _) => Some(e)
      case Recorded(_, e, _) => Some(e)
      case Done(_, t, _, _) => t
    }

    // The reference of the effect this handler made, if it has.
    function Effect(): Option<Id>
    {
      match this
      case Recorded(_, _, ref) => Some(ref)
      case Done(_, _, made, _) => made
      case _ => None
    }

    // How far from the reply; the handlers have no loop.
    function StepsLeft(): nat
    {
      match this
      case Arrived(_) => 5
      case KeyMissed(_) => 4
      case TokenTaken(_, _) => 3
      case Deducted(_, _, _) => 2
      case Recorded(_, _, _) => 1
      case Done(_, _, _, _) => 0
    }
  }

  function HandlerStep(st: Store, now: real, x: Exec): (r: (Store, Exec))
    requires !x.Done?
    ensures r.1.req == x.req && r.1.StepsLeft() < x.StepsLeft()
    ensures x.Taken().Some? ==> r.1.Taken() == x.Taken()
    ensures x.Effect().Some? ==> r.1.Effect() == x.Effect()
  {
    match x
    case Arrived(req) =>
      if (req.tenantId, req.key) in st.replies then
        (st, Done(req, None, None, Ok(st.replies[(req.tenantId, req.key)])))
      else (st, KeyMissed(req))
    case KeyMissed(req) =>
      (match ConsumeToken(st.tokens, now, req.token, req.tenantId, req.action)
       case Err(e) => (st, Done(req, None, None, Err(e)))
       case Ok(entry) =>
         var st' := st.(tokens := st.tokens[req.token := entry]);
         if entry.requiresApproval && req.approvalId.None? then
           (st', Done(req, Some(entry), None, Err(ApprovalIdRequired)))
         else (st', TokenTaken(req, entry)))
    case TokenTaken(req, entry) =>
      (match entry.params
       case Leave(form) =>
         var left := BalanceOf(st.balances, form.employeeId) - form.leaveDays;
         (st.(balances := st.balances[form.employeeId := left]), Deducted(req, entry, form))
       case Payroll(_, _, _) =>
         (st.(nextId := st.nextId + 1), Recorded(req, entry, st.nextId)))
    case Deducted(req, entry, form) =>
      var rec := LeaveRecord(st.nextId, form, req.approvalId);
      (st.(requests := st.requests + [rec], nextId := st.nextId + 1), Recorded(req, entry, st.nextId))
    case Recorded(req, entry, ref) =>
      var resp := ExecuteResponse(req.action, ref);
      (st.(replies := st.replies[(req.tenantId, req.key) := resp]), Done(req, Some(entry), Some(ref), Ok(resp)))
  }

  // A handler that nothing interrupts.
  function RunAlone(st: Store, now: real, x: Exec): (r: (Store, Exec))
    ensures r.1.Done? && r.1.req == x.req
    decreases x.StepsLeft()
  {
    if x.Done? then (st, x) else var (st', x') := HandlerStep(st, now, x); RunAlone(st', now, x')
  }

  // The whole of one execute, from what it finds: a stored reply is answered again; a token that is unknown or another
  // tenant's, issued for another action, used or expired is refused with nothing changed; one that needs an approval it does
  // not name is spent for nothing; any other makes its one effect and stores its reply.
  lemma ExecuteAlone(st: Store, now: real, req: ExecuteRequest)
    ensures var (after, x) := RunAlone(st, now, Arrived(req));
            var k := (req.tenantId, req.key);
            if k in st.replies then after == st && x.reply == Ok(st.replies[k])
            else if req.token !in st.tokens || st.tokens[req.token].tenantId != req.tenantId then
              after == st && x.reply == Err(InvalidToken)
            else
              var entry := st.tokens[req.token];
              var spent := st.(tokens := st.tokens[req.token := entry.(consumed := true)]);
              if entry.action != req.action then after == st && x.reply == Err(WrongAction)
              else if entry.consumed then after == st && x.reply == Err(TokenAlreadyUsed)
              else if now > entry.expiresAt then after == st && x.reply == Err(TokenExpired)
              else if entry.requiresApproval && req.approvalId.None? then after == spent && x.reply == Err(ApprovalIdRequired)
              else
                var answer := ExecuteResponse(req.action, st.nextId);
                var answered := spent.(replies := st.replies[k := answer], nextId := st.nextId + 1);
                && x.reply == Ok(answer)
                && match entry.params
                   case Payroll(_, _, _) => after == answered
                   case Leave(form) =>
                     var had := if form.employeeId in st.balances then st.balances[form.employeeId] else 0;
                     after == answered.(balances := st.balances[form.employeeId := had - form.leaveDays],
                                        requests := st.requests + [LeaveRecord(st.nextId, form, req.approvalId)])
  {
    hide RunAlone;
    var x0 := Arrived(req);
    Alone(st, now, x0);
    if (req.tenantId, req.key) in st.replies {
      Alone(st, now, HandlerStep(st, now, x0).1);
      return;
    }
    var x1 := KeyMissed(req);
    Alone(st, now, x1);
    var (s2, x2) := HandlerStep(st, now, x1);
    Alone(s2, now, x2);
    if x2.TokenTaken? {
      AloneFromTaken(s2, now, x2);
    }
  }

  lemma Alone(st: Store, now: real, x: Exec)
    ensures RunAlone(st, now, x) ==
            if x.Done? then (st, x) else var (st', x') := HandlerStep(st, now, x); RunAlone(st', now, x')
  {}

  lemma AloneFromTaken(st: Store, now: real, x: Exec)
    requires x.TokenTaken?
    ensures var (after, done) := RunAlone(st, now, x);
            var answer := ExecuteResponse(x.req.action, st.nextId);
            var answered := st.(replies := st.replies[(x.req.tenantId, x.req.key) := answer], nextId := st.nextId + 1);
            && done.reply == Ok(answer)
            && match x.entry.params
               case Payroll(_, _, _) => after == answered
               case Leave(form) =>
                 var had := if form.employeeId in st.balances then st.balances[form.employeeId] else 0;
                 after == answered.(balances := st.balances[form.employeeId := had - form.leaveDays],
                                    requests := st.requests + [LeaveRecord(st.nextId, form, x.req.approvalId)])
  {
    hide RunAlone;
    Alone(st, now, x);
    var (s1, x1) := HandlerStep(st, now, x);
    Alone(s1, now, x1);
    var (s2, x2) := HandlerStep(s1, now, x1);
    Alone(s2, now, x2);
    if !x2.Done? {
      Alone(HandlerStep(s2, now, x2).0, now, HandlerStep(s2, now, x2).1);
    }
  }

  class PreviewTokenStore {
    const ttl: real
    var tokens: map<Id, PreviewEntry>

    constructor (ttl: real)
      ensures this.ttl == ttl && tokens == map[]
    {
      this.ttl := ttl;
      tokens := map[];
    }

    method Issue(token: Id, now: real, params: Params, tenantId: string, requiresApproval: bool)
      modifies this`tokens
      ensures tokens == old(tokens)[token :=
                PreviewEntry(ActionOf(params), params, tenantId, requiresApproval, now + ttl, false)]
    {
      tokens := tokens[token :=
        PreviewEntry(ActionOf(params), params, tenantId, requiresApproval, now + ttl, false)];
    }

    method Consume(now: real, token: Id, tenantId: string, action: Action)
      returns (r: Result<PreviewEntry, ApiError>)
      modifies this`tokens
      ensures r == ConsumeToken(old(tokens), now, token, tenantId, action)
      ensures tokens == if r.Ok? then old(tokens)[token := r.value] else old(tokens)
    {
      if token !in tokens { return Err(InvalidToken); }
      var entry := tokens[token];
      if entry.tenantId != tenantId { return Err(InvalidToken); }
      if entry.action != action { return Err(WrongAction); }
      if entry.consumed { return Err(TokenAlreadyUsed); }
      if now > entry.expiresAt { return Err(TokenExpired); }
      entry := entry.(consumed := true);
      tokens := tokens[token := entry];
      r := Ok(entry);
    }
  }

  class IdempotencyStore {
    var replies: map<(string, Id), ExecuteResponse>

    constructor ()
      ensures replies == map[]
    {
      replies := map[];
    }

    method Get(tenantId: string, key: Id) returns (r: Option<ExecuteResponse>)
      ensures r == if (tenantId, key) in replies then Some(replies[(tenantId, key)]) else None
    {
      if (tenantId, key) in replies { r := Some(replies[(tenantId, key)]); } else { r := None; }
    }

    method Put(tenantId: string, key: Id, response: ExecuteResponse)
      modifies this
      ensures replies == old(replies)[(tenantId, key) := response]
    {
      replies := replies[(tenantId, key) := response];
    }
  }

  class BusinessState {
    const seedBalances: map<string, int>
    const seedRequests: seq<LeaveRecord>
    var leaveBalances: map<string, int>
    var leaveRequests: seq<LeaveRecord>

    constructor (balances: map<string, int>, requests: seq<LeaveRecord>)
      ensures seedBalances == leaveBalances == balances
      ensures seedRequests == leaveRequests == requests
    {
      seedBalances, seedRequests := balances, requests;
      leaveBalances, leaveRequests := balances, requests;
    }

    method Reset()
      modifies this
      ensures leaveBalances == seedBalances && leaveRequests == seedRequests
    {
      leaveBalances, leaveRequests := seedBalances, seedRequests;
    }

    method DeductLeave(employeeId: string, days: LeaveDays) returns (left: int)
      modifies this`leaveBalances
      ensures left == BalanceOf(old(leaveBalances), employeeId) - days
      ensures leaveBalances == old(leaveBalances)[employeeId := left]
    {
      left := BalanceOf(leaveBalances, employeeId) - days;
      leaveBalances := leaveBalances[employeeId := left];
    }

    method RecordLeaveRequest(record: LeaveRecord)
      modifies this`leaveRequests
      ensures leaveRequests == old(leaveRequests) + [record]
    {
      leaveRequests := leaveRequests + [record];
    }
  }

  class Service {
    const previewTokens: PreviewTokenStore
    const idempotency: IdempotencyStore
    const state: BusinessState
    var nextId: Id

    ghost function View(): Store
      reads this, previewTokens, idempotency, state
    {
      Store(previewTokens.tokens, idempotency.replies, state.leaveBalances, state.leaveRequests, nextId)
    }

    constructor (ttl: real, balances: map<string, int>, requests: seq<LeaveRecord>)
      ensures fresh(previewTokens) && fresh(idempotency) && fresh(state)
      ensures previewTokens.ttl == ttl && state.seedBalances == balances && state.seedRequests == requests
      ensures View() == Store(map[], map[], balances, requests, 0)
    {
      previewTokens := new PreviewTokenStore(ttl);
      idempotency := new IdempotencyStore();
      state := new BusinessState(balances, requests);
      nextId := 0;
    }

    // preview_submit_leave_request and preview_adjust_payroll: the risk decision, the token, the warnings.
    method Preview(now: real, params: Params, tenantId: string)
      returns (token: Id, requiresApproval: bool, validationError: bool)
      modifies this`nextId, previewTokens`tokens
      ensures token == old(nextId)
      ensures params.Payroll? ==> requiresApproval && !validationError
      ensures params.Leave? ==> (requiresApproval <==> params.form.leaveDays > 5)
      ensures params.Leave? ==>
                var balances := old(state.leaveBalances);
                (validationError <==> if params.form.employeeId in balances then params.form.leaveDays > balances[params.form.employeeId]
                                      else params.form.leaveDays > 0)
      ensures View() == old(View()).(
                tokens := old(View()).tokens[token := PreviewEntry(
                  if params.Payroll? then AdjustPayroll else SubmitLeaveRequest, params, tenantId, requiresApproval,
                  now + previewTokens.ttl, false)],
                nextId := old(nextId) + 1)
    {
      validationError := false;
      match params {
        case Leave(form) =>
          var balance := BalanceOf(state.leaveBalances, form.employeeId);
          if form.leaveDays > balance { validationError := true; }
          requiresApproval := form.leaveDays > LEAVE_DAYS_HIGH_RISK_THRESHOLD;
        case Payroll(_, _, _) =>
          requiresApproval := true;
      }
      token := nextId;
      nextId := nextId + 1;
      previewTokens.Issue(token, now, params, tenantId, requiresApproval);
    }

    // execute_submit_leave_request and execute_adjust_payroll, uninterrupted.
    method Execute(now: real, req: ExecuteRequest) returns (r: Result<ExecuteResponse, ApiError>)
      modifies this`nextId, previewTokens`tokens, idempotency, state
      ensures var (after, handler) := RunAlone(old(View()), now, Arrived(req));
              View() == after && handler.reply == r
    {
      var existing := idempotency.Get(req.tenantId, req.key);
      if existing.Some? { return Ok(existing.value); }
      ghost var whole := RunAlone(old(View()), now, Arrived(req));
      assert whole == RunAlone(View(), now, KeyMissed(req));

      var consumed := previewTokens.Consume(now, req.token, req.tenantId, req.action);
      if consumed.Err? {
        assert whole == RunAlone(View(), now, Done(req, None, None, Err(consumed.error)));
        return Err(consumed.error);
      }
      var entry := consumed.value;
      if entry.requiresApproval && req.approvalId.None? {
        assert whole == RunAlone(View(), now, Done(req, Some(entry), None, Err(ApprovalIdRequired)));
        return Err(ApprovalIdRequired);
      }
      assert whole == RunAlone(View(), now, TokenTaken(req, entry));

      var ref;
      match entry.params {
        case Leave(form) =>
          var _ := state.DeductLeave(form.employeeId, form.leaveDays);
          assert whole == RunAlone(View(), now, Deducted(req, entry, form));
          ref := nextId;
          nextId := nextId + 1;
          state.RecordLeaveRequest(LeaveRecord(ref, form, req.approvalId));
        case Payroll(_, _, _) =>
          ref := nextId;
          nextId := nextId + 1;
      }
      assert whole == RunAlone(View(), now, Recorded(req, entry, ref));
      var response := ExecuteResponse(req.action, ref);
      idempotency.Put(req.tenantId, req.key, response);
      assert whole == RunAlone(View(), now, Done(req, Some(entry), Some(ref), Ok(response)));
      r := Ok(response);
    }
  }
}
