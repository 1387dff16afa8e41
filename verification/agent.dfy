/**
 The respond/act loop of one run: the model's replies are arbitrary input,
 and so is what the services answer. The log lists every call that leaves
 the harness, in order.
 */
module Agent {
  import opened Wrappers
  import opened Policy

  const MAX_TOOL_ITERATIONS: nat := 2

  datatype Call = Call(id: string, name: string, args: Args)

  datatype Content = Failure | Answer | AwaitingApproval | Executed(businessRef: string)

  datatype Message =
    | System
    | User
    | Assistant(text: string)
    | Requests(calls: seq<Call>)
    | ToolResult(callId: string, content: Content)

  datatype ModelReply = ModelReply(text: string, calls: seq<Call>)

  // A remote call returns, fails with an error the harness handles, or raises past it.
  datatype Response<+T> = Done(value: T) | Refused | Raised

  datatype Previewed = Previewed(errors: seq<string>, requiresApproval: bool, token: nat)

  // What the services would say to one tool call.
  datatype Services = Services(
    search: Response<()>, query: Response<()>, preview: Response<Previewed>, execute: Response<string>)

  datatype Effect =
    | Faq(tool: string, args: Args, found: Response<()>)
    | Query(tool: string, args: Args, found: Response<()>)
    | Preview(tool: string, args: Args, got: Response<Previewed>)
    | Execute(tool: string, token: nat, key: nat, res: Response<string>)

  datatype RequestStatus = Awaiting | ExecutedNow(businessRef: string) | FailedNow

  datatype MutationRequest = MutationRequest(action: string, args: Args, token: nat, key: nat, status: RequestStatus)

  datatype Invocation = Invocation(tool: string, ok: bool)

  // Fixed for the whole run: `decision` is computed once, by authorize.
  datatype Settings = Settings(
    manifests: Manifests, decision: Decision, employeeId: Option<string>, validate: (Tool, Args) -> Option<Args>)

  // The parameter models hold ids as plain strings, which validation returns as they came.
  ghost predicate KeepsScope(settings: Settings)
  {
    forall tool: Tool, args: Args :: KeepsScopeOf(tool, args, settings.validate(tool, args))
  }

  predicate KeepsScopeOf(tool: Tool, args: Args, validated: Option<Args>)
  {
    validated.Some? && tool.scopeParam.Some? ==>
      var p := tool.scopeParam.value;
      (p in args <==> p in validated.value) && (p in args ==> validated.value[p] == args[p])
  }

  // ---- One tool call ---------------------------------------------------------

  datatype Outcome = Outcome(
    content: Content, ok: bool, effects: seq<Effect>, previewed: Option<string>, executed: Option<string>,
    request: Option<MutationRequest>, raised: bool)

  function Error(effects: seq<Effect>): Outcome
  {
    Outcome(Failure, false, effects, None, None, None, false)
  }

  function Raise(effects: seq<Effect>): Outcome
  {
    Outcome(Failure, false, effects, None, None, None, true)
  }

  // `key` stands for the fresh idempotency key this call would generate.
  function ExecuteMutation(tool: Tool, args: Args, key: nat, services: Services): Outcome
  {
    var preview := Preview(tool.name, args, services.preview);
    match services.preview
    case Raised => Raise([preview])
    case Refused => Error([preview])
    case Done(Previewed(errors, requiresApproval, token)) =>
      if errors != [] then Error([preview])
      else if requiresApproval then
        Outcome(AwaitingApproval, true, [preview], Some(tool.name), None,
                Some(MutationRequest(tool.name, args, token, key, Awaiting)), false)
      else
        var effects := [preview, Execute(tool.name, token, key, services.execute)];
        match services.execute
        case Raised => Raise(effects)
        case Refused =>
          Outcome(Failure, false, effects, Some(tool.name), None,
                  Some(MutationRequest(tool.name, args, token, key, FailedNow)), false)
        case Done(ref) =>
          Outcome(Executed(ref), true, effects, Some(tool.name), Some(tool.name),
                  Some(MutationRequest(tool.name, args, token, key, ExecutedNow(ref))), false)
  }

  // The arguments the call would be made with, or None when a check refuses it first.
  function CheckedArgs(settings: Settings, call: Call): Option<Args>
  {
    if call.name !in settings.manifests then None
    else
      var tool := settings.manifests[call.name];
      if tool.name !in settings.decision.allowed then None
      else if tool.scopeParam.None? || tool.scopeParam.value == "" then settings.validate(tool, call.args)
      else
        var p := tool.scopeParam.value;
        var args := ApplyScopeDefault(call.args, p, settings.employeeId);
        if tool.name in settings.decision.constraints
           && !InScope(args, p, settings.decision.constraints[tool.name].allowedIds) then None
        else settings.validate(tool, args)
  }

  function ExecuteToolCall(settings: Settings, call: Call, key: nat, services: Services): Outcome
  {
    var checked := CheckedArgs(settings, call);
    if checked.None? || call.name !in settings.manifests then Error([])
    else
      var (tool, args) := (settings.manifests[call.name], checked.value);
      if tool.domain == "faq" then
        var search := Faq(tool.name, args, services.search);
        if services.search.Done? then Outcome(Answer, true, [search], None, None, None, false) else Raise([search])
      else if tool.kind.Readonly? then
        var query := Query(tool.name, args, services.query);
        match services.query
        case Done(_) => Outcome(Answer, true, [query], None, None, None, false)
        case Refused => Error([query])
        case Raised => Raise([query])
      else ExecuteMutation(tool, args, key, services)
  }

  // ---- The loop --------------------------------------------------------------

  datatype State = State(
    messages: seq<Message>, pending: seq<Call>, iterations: nat, offered: set<string>,
    previewed: seq<string>, executed: seq<string>, records: seq<Invocation>, requests: seq<MutationRequest>,
    output: Option<string>)

  datatype Phase = Responding | Acting | Finished | Failed

  datatype World = World(state: State, log: seq<Effect>, phase: Phase, responds: nat, acts: nat)

  const START: World := World(State([], [], 0, {}, [], [], [], [], None), [], Responding, 0, 0)

  function Offer(settings: Settings): set<string>
  {
    set n | n in settings.decision.allowed && n in settings.manifests
  }

  function Respond(settings: Settings, s: State, context: bool, reply: ModelReply): State
  {
    var messages := if s.messages != [] then s.messages else if context then [System, System, User] else [System, User];
    var offered := if s.iterations < MAX_TOOL_ITERATIONS then s.offered + Offer(settings) else s.offered;
    if reply.calls != [] then
      s.(messages := messages + [Requests(reply.calls)], pending := reply.calls, offered := offered)
    else
      s.(messages := messages + [Assistant(reply.text)], pending := [], offered := offered, output := Some(reply.text))
  }

  // A Python string that is empty is not appended.
  function Noted(names: seq<string>, name: Option<string>): seq<string>
  {
    if name.Some? && name.value != "" then names + [name.value] else names
  }

  function Absorb(s: State, call: Call, o: Outcome, tool: string): State
  {
    s.(messages := s.messages + [ToolResult(call.id, o.content)],
       records := s.records + [Invocation(tool, o.ok)],
       previewed := Noted(s.previewed, o.previewed),
       executed := Noted(s.executed, o.executed),
       requests := if o.request.Some? then s.requests + [o.request.value] else s.requests)
  }

  // The calls of one act, in order, until one raises.
  function Calls(settings: Settings, w: World, calls: seq<Call>, services: nat -> Services): World
  {
    if calls == [] then w
    else
      var before := Calls(settings, w, calls[..|calls| - 1], services);
      if before.phase.Failed? then before
      else CallOne(settings, before, calls[|calls| - 1], services)
  }

  function CallOne(settings: Settings, w: World, call: Call, services: nat -> Services): World
  {
    var key := |w.state.records|;
    var o := ExecuteToolCall(settings, call, key, services(key));
    if o.raised then w.(log := w.log + o.effects, phase := Failed)
    else w.(state := Absorb(w.state, call, o, call.name), log := w.log + o.effects)
  }

  // An exception leaves the node: its state update is lost, its calls are not.
  function Act(settings: Settings, w: World, services: nat -> Services): World
  {
    var after := Calls(settings, w, w.state.pending, services);
    if after.phase.Failed? then w.(log := after.log, phase := Failed, acts := w.acts + 1)
    else
      after.(state := after.state.(pending := [], iterations := w.state.iterations + 1),
             phase := Responding, acts := w.acts + 1)
  }

  function Step(settings: Settings, w: World, context: bool, replies: nat -> ModelReply, services: nat -> Services): World
  {
    match w.phase
    case Responding =>
      var s := Respond(settings, w.state, context, replies(w.responds));
      World(s, w.log, if s.pending != [] then Acting else Finished, w.responds + 1, w.acts)
    case Acting => Act(settings, w, services)
    case _ => w
  }

  function Run(settings: Settings, context: bool, replies: nat -> ModelReply, services: nat -> Services, n: nat): World
  {
    if n == 0 then START
    else Step(settings, Run(settings, context, replies, services, n - 1), context, replies, services)
  }

  // ---- What leaves the harness -------------------------------------------------

  // The tool was allowed, and any scope parameter is in the ids the decision resolved.
  ghost predicate Authorized(settings: Settings, tool: string, args: Args)
  {
    && tool in settings.manifests && tool in settings.decision.allowed
    && var t := settings.manifests[tool];
       (t.scopeParam.Some? && t.scopeParam.value != "" && tool in settings.decision.constraints ==>
          InScope(args, t.scopeParam.value, settings.decision.constraints[tool].allowedIds))
  }

  ghost predicate Lawful(settings: Settings, log: seq<Effect>)
  {
    forall k | 0 <= k < |log| :: LawfulAt(settings, log, k)
  }

  // An execute directly follows the clean, approval-free preview that issued its token.
  ghost predicate LawfulAt(settings: Settings, log: seq<Effect>, k: int)
    requires 0 <= k < |log|
  {
    match log[k]
    case Faq(tool, args, _) => Authorized(settings, tool, args) && settings.manifests[tool].domain == "faq"
    case Query(tool, args, _) =>
      Authorized(settings, tool, args) && settings.manifests[tool].kind.Readonly? && settings.manifests[tool].domain != "faq"
    case Preview(tool, args, _) =>
      Authorized(settings, tool, args) && settings.manifests[tool].kind.Mutation? && settings.manifests[tool].domain != "faq"
    case Execute(tool, token, _, _) =>
      k > 0 && log[k - 1].Preview? && log[k - 1].tool == tool && log[k - 1].got == Done(Previewed([], false, token))
  }

  function Appended(names: seq<string>, name: string): seq<string>
  {
    if name != "" then names + [name] else names
  }

  // The tools whose preview came back clean, and those whose execute came back, as the log has them.
  function CleanPreviews(log: seq<Effect>): seq<string>
  {
    if log == [] then []
    else
      var rest, e := CleanPreviews(log[..|log| - 1]), log[|log| - 1];
      if e.Preview? && e.got.Done? && e.got.value.errors == [] then Appended(rest, e.tool) else rest
  }

  function Executions(log: seq<Effect>): seq<string>
  {
    if log == [] then []
    else
      var rest, e := Executions(log[..|log| - 1]), log[|log| - 1];
      if e.Execute? && e.res.Done? then Appended(rest, e.tool) else rest
  }
}
