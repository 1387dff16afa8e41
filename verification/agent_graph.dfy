/** The graph's respond and act nodes, statement by statement, on one run's mutable state. */
module AgentGraph {
  import opened Wrappers
  import opened Policy
  import opened Agent

  class AgentRun {
    var messages: seq<Message>
    var pending: seq<Call>
    var iterations: nat
    var offered: set<string>
    var previewed: seq<string>
    var executed: seq<string>
    var records: seq<Invocation>
    var requests: seq<MutationRequest>
    var output: Option<string>
    var log: seq<Effect>   // every call that left the harness

    ghost function View(): State
      reads this
    {
      State(messages, pending, iterations, offered, previewed, executed, records, requests, output)
    }

    constructor ()
      ensures View() == START.state && log == START.log
    {
      messages, pending, iterations, offered := [], [], 0, {};
      previewed, executed, records, requests, output, log := [], [], [], [], None, [];
    }

    // The model is offered every allowed tool of the deployment in its first two turns, and none after.
    method RespondNode(settings: Settings, context: bool, reply: ModelReply) returns (tools: set<string>)
      modifies this
      ensures forall n :: n in tools <==> old(iterations) < 2 && n in settings.decision.allowed && n in settings.manifests
      ensures View() == Respond(settings, old(View()), context, reply) && log == old(log)
    {
      var soFar := messages;
      if soFar == [] {
        soFar := [System];
        if context { soFar := soFar + [System]; }
        soFar := soFar + [User];
      }
      tools := if iterations < MAX_TOOL_ITERATIONS then Offer(settings) else {};
      offered := offered + tools;
      if reply.calls != [] {
        messages := soFar + [Requests(reply.calls)];
        pending := reply.calls;
      } else {
        messages := soFar + [Assistant(reply.text)];
        pending := [];
        output := Some(reply.text);
      }
    }

    // execute_tool_call: the arguments are defaulted in place, then each effect happens in order.
    method CallTool(settings: Settings, call: Call, key: nat, services: Services) returns (o: Outcome)
      modifies `log
      ensures o == ExecuteToolCall(settings, call, key, services) && log == old(log) + o.effects
    {
      if call.name !in settings.manifests || settings.manifests[call.name].name !in settings.decision.allowed {
        return Error([]);
      }
      var tool := settings.manifests[call.name];
      var args := call.args;
      if tool.scopeParam.Some? && tool.scopeParam.value != "" {
        var p := tool.scopeParam.value;
        if HasIdentity(settings.employeeId) && !Given(args, p) {
          args := args[p := Text(settings.employeeId.value)];
        }
        if tool.name in settings.decision.constraints
           && !InScope(args, p, settings.decision.constraints[tool.name].allowedIds) {
          return Error([]);
        }
      }
      var validated := settings.validate(tool, args);
      if validated.None? {
        return Error([]);
      }
      assert CheckedArgs(settings, call) == validated;
      if tool.domain == "faq" {
        var search := Faq(tool.name, validated.value, services.search);
        log := log + [search];
        if !services.search.Done? {
          return Raise([search]);
        }
        return Outcome(Answer, true, [search], None, None, None, false);
      }
      if tool.kind.Readonly? {
        var query := Query(tool.name, validated.value, services.query);
        log := log + [query];
        match services.query {
          case Raised => return Raise([query]);
          case Refused => return Error([query]);
          case Done(_) => return Outcome(Answer, true, [query], None, None, None, false);
        }
      }
      o := MutateTool(tool, validated.value, key, services);
    }

    method MutateTool(tool: Tool, args: Args, key: nat, services: Services) returns (o: Outcome)
      modifies `log
      ensures o == ExecuteMutation(tool, args, key, services) && log == old(log) + o.effects
    {
      var preview := Preview(tool.name, args, services.preview);
      log := log + [preview];
      if services.preview.Raised? {
        return Raise([preview]);
      }
      if services.preview.Refused? || services.preview.value.errors != [] {
        return Error([preview]);
      }
      var token := services.preview.value.token;
      if services.preview.value.requiresApproval {
        return Outcome(AwaitingApproval, true, [preview], Some(tool.name), None,
                       Some(MutationRequest(tool.name, args, token, key, Awaiting)), false);
      }
      var execute := Execute(tool.name, token, key, services.execute);
      log := log + [execute];
      assert log == old(log) + [preview, execute];
      match services.execute {
        case Raised => return Raise([preview, execute]);
        case Refused =>
          return Outcome(Failure, false, [preview, execute], Some(tool.name), None,
                         Some(MutationRequest(tool.name, args, token, key, FailedNow)), false);
        case Done(ref) =>
          return Outcome(Executed(ref), true, [preview, execute], Some(tool.name), Some(tool.name),
                         Some(MutationRequest(tool.name, args, token, key, ExecutedNow(ref))), false);
      }
    }

    // Results are collected in lists of their own and only then become the run's state; an exception leaves them behind.
    method ActNode(settings: Settings, services: nat -> Services, ghost w: World) returns (raised: bool)
      requires w.state == View() && w.log == log && w.phase.Acting?
      modifies this
      ensures var after := Act(settings, w, services);
              View() == after.state && log == after.log && (raised <==> after.phase.Failed?)
    {
      hide ExecuteToolCall, Calls;
      NoCalls(settings, w, services);
      var results: seq<Message> := [];
      var (pre, exe, recs, reqs) := (previewed, executed, records, requests);
      var i := 0;
      raised := false;
      while i < |pending| && !raised
        invariant 0 <= i <= |pending| && View() == w.state
        invariant var mid := Calls(settings, w, pending[..i], services);
                  && log == mid.log && (raised <==> mid.phase.Failed?)
                  && (!raised ==> mid == w.(log := log, state :=
                        w.state.(messages := messages + results, previewed := pre, executed := exe, records := recs, requests := reqs)))
        invariant raised ==> Calls(settings, w, pending, services).phase.Failed? && Calls(settings, w, pending, services).log == log
      {
        var call := pending[i];
        var o := CallTool(settings, call, |recs|, services(|recs|));
        CallsUnfold(settings, w, pending, services, i);
        if o.raised {
          raised := true;
          FailureSticks(settings, w, pending, services, i + 1);
        } else {
          results := results + [ToolResult(call.id, o.content)];
          recs := recs + [Invocation(call.name, o.ok)];
          pre, exe := Noted(pre, o.previewed), Noted(exe, o.executed);
          if o.request.Some? { reqs := reqs + [o.request.value]; }
        }
        i := i + 1;
      }
      assert i == |pending| ==> pending[..i] == pending;
      if !raised {
        messages := messages + results;
        pending := [];
        iterations := iterations + 1;
        previewed, executed, records, requests := pre, exe, recs, reqs;
      }
    }
  }

  lemma NoCalls(settings: Settings, w: World, services: nat -> Services)
    ensures Calls(settings, w, [], services) == w
  {
  }

  lemma CallsUnfold(settings: Settings, w: World, calls: seq<Call>, services: nat -> Services, i: nat)
    requires i < |calls|
    ensures var before := Calls(settings, w, calls[..i], services);
            Calls(settings, w, calls[..i + 1], services) ==
            if before.phase.Failed? then before else CallOne(settings, before, calls[i], services)
  {
    assert calls[..i + 1][..i] == calls[..i];
  }

  lemma {:induction false} FailureSticks(settings: Settings, w: World, calls: seq<Call>, services: nat -> Services, i: nat)
    requires i <= |calls| && Calls(settings, w, calls[..i], services).phase.Failed?
    ensures Calls(settings, w, calls, services) == Calls(settings, w, calls[..i], services)
    decreases |calls| - i
  {
    if i == |calls| {
      assert calls[..i] == calls;
    } else {
      CallsUnfold(settings, w, calls, services, i);
      FailureSticks(settings, w, calls, services, i + 1);
    }
  }
}
