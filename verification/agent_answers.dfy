/** What the model is told of each tool call, against what that call did. */
module AgentAnswers {
  import opened Wrappers
  import opened Policy
  import opened Agent

  // The tool messages, in order.
  function Results(ms: seq<Message>): (r: seq<Message>)
    ensures forall m <- r :: m.ToolResult?
  {
    if ms == [] then []
    else
      var rest, m := Results(ms[..|ms| - 1]), ms[|ms| - 1];
      if m.ToolResult? then rest + [m] else rest
  }

  lemma ResultsOneMore(ms: seq<Message>, m: Message)
    ensures Results(ms + [m]) == if m.ToolResult? then Results(ms) + [m] else Results(ms)
  {
    assert (ms + [m])[..|ms|] == ms;
  }

  function Together(parts: seq<seq<Effect>>): seq<Effect>
  {
    if parts == [] then [] else Together(parts[..|parts| - 1]) + parts[|parts| - 1]
  }

  lemma TogetherOneMore(parts: seq<seq<Effect>>, part: seq<Effect>)
    ensures Together(parts + [part]) == Together(parts) + part
  {
    assert (parts + [part])[..|parts|] == parts;
  }

  // What the last thing a call did amounts to for the model.
  function Meaning(e: Effect): Content
  {
    match e
    case Faq(_, _, found) => if found.Done? then Answer else Failure
    case Query(_, _, found) => if found.Done? then Answer else Failure
    case Preview(_, _, got) =>
      if got.Done? && got.value.errors == [] && got.value.requiresApproval then AwaitingApproval else Failure
    case Execute(_, _, _, res) => if res.Done? then Executed(res.value) else Failure
  }

  predicate Told(part: seq<Effect>, content: Content, ok: bool)
  {
    content == (if part == [] then Failure else Meaning(part[|part| - 1])) && (ok <==> content != Failure)
  }

  // The request a call leaves on record: one for each clean preview, under the call's own key, for what was previewed, and
  // as far as it got.
  function RequestOf(part: seq<Effect>, key: nat): Option<MutationRequest>
  {
    if part == [] || !part[0].Preview? || !part[0].got.Done? || part[0].got.value.errors != [] then None
    else
      var status := if |part| == 1 || !part[1].Execute? then Awaiting
                    else if part[1].res.Done? then ExecutedNow(part[1].res.value) else FailedNow;
      Some(MutationRequest(part[0].tool, part[0].args, part[0].got.value.token, key, status))
  }

  function Filed(parts: seq<seq<Effect>>): seq<MutationRequest>
  {
    if parts == [] then []
    else
      var (rest, r) := (Filed(parts[..|parts| - 1]), RequestOf(parts[|parts| - 1], |parts| - 1));
      if r.Some? then rest + [r.value] else rest
  }

  lemma FiledOneMore(parts: seq<seq<Effect>>, part: seq<Effect>)
    ensures var r := RequestOf(part, |parts|); Filed(parts + [part]) == Filed(parts) + if r.Some? then [r.value] else []
  {
    assert (parts + [part])[..|parts|] == parts;
  }

  // A service raised past the harness; a search has no failure the harness handles.
  predicate Broke(e: Effect)
  {
    match e
    case Faq(_, _, found) => !found.Done?
    case Query(_, _, found) => found.Raised?
    case Preview(_, _, got) => got.Raised?
    case Execute(_, _, _, res) => res.Raised?
  }

  // Nothing broke, but for the last thing done if the run failed.
  predicate BreaksLast(log: seq<Effect>, failed: bool)
  {
    && (failed ==> log != [])
    && forall k | 0 <= k < |log| :: Broke(log[k]) <==> failed && k == |log| - 1
  }

  lemma BreaksLater(a: seq<Effect>, b: seq<Effect>, failed: bool)
    requires BreaksLast(a, false) && BreaksLast(b, failed)
    ensures BreaksLast(a + b, failed)
  {
    hide Broke;
    forall k | 0 <= k < |a + b| ensures Broke((a + b)[k]) <==> failed && k == |a + b| - 1 {
      if k >= |a| { assert (a + b)[k] == b[k - |a|]; }
    }
  }

  // Call by call: part k of the log is what the k-th recorded call sent, all of it to that tool, and the message and the
  // record say how it went.
  predicate ToldAt(s: State, parts: seq<seq<Effect>>, k: nat)
    requires k < |parts| == |s.records| == |Results(s.messages)|
  {
    && Told(parts[k], Results(s.messages)[k].content, s.records[k].ok)
    && forall e <- parts[k] :: e.tool == s.records[k].tool
  }

  predicate AccountedBy(s: State, log: seq<Effect>, parts: seq<seq<Effect>>)
  {
    && |parts| == |s.records| == |Results(s.messages)|
    && Together(parts) <= log && s.requests == Filed(parts)
    && forall k | 0 <= k < |parts| :: ToldAt(s, parts, k)
  }

  lemma CallIsTold(settings: Settings, call: Call, key: nat, services: Services)
    requires Keyed(settings.manifests)
    ensures var o := ExecuteToolCall(settings, call, key, services);
            && (forall e <- o.effects :: e.tool == call.name)
            && (!o.raised ==> Told(o.effects, o.content, o.ok) && o.request == RequestOf(o.effects, key))
            && BreaksLast(o.effects, o.raised)
  {
    hide CheckedArgs;
  }

  lemma AbsorbedIsTold(s: State, log: seq<Effect>, parts: seq<seq<Effect>>, call: Call, o: Outcome)
    requires AccountedBy(s, log, parts) && Together(parts) == log
    requires Told(o.effects, o.content, o.ok) && o.request == RequestOf(o.effects, |parts|)
    requires forall e <- o.effects :: e.tool == call.name
    ensures AccountedBy(Absorb(s, call, o, call.name), log + o.effects, parts + [o.effects])
    ensures Together(parts + [o.effects]) == log + o.effects
  {
    hide Told, Noted, RequestOf;
    FiledOneMore(parts, o.effects);
    var s' := Absorb(s, call, o, call.name);
    ResultsOneMore(s.messages, ToolResult(call.id, o.content));
    TogetherOneMore(parts, o.effects);
    forall k | 0 <= k < |parts + [o.effects]| ensures ToldAt(s', parts + [o.effects], k) {
      if k < |parts| { assert ToldAt(s, parts, k); }
    }
  }

  // The state before the failing call keeps its account; the log may have gone on.
  ghost predicate Accounted(w: World)
  {
    && BreaksLast(w.log, w.phase.Failed?)
    && exists parts :: AccountedBy(w.state, w.log, parts) && (w.phase.Failed? || Together(parts) == w.log)
  }

  lemma {:induction false} CallsAreTold(settings: Settings, w: World, calls: seq<Call>, services: nat -> Services)
    requires Keyed(settings.manifests) && !w.phase.Failed? && Accounted(w)
    ensures var after := Calls(settings, w, calls, services); Accounted(after) && w.log <= after.log
  {
    hide ExecuteToolCall, AccountedBy, Absorb, BreaksLast;
    if calls != [] {
      var n := |calls| - 1;
      CallsAreTold(settings, w, calls[..n], services);
      var mid := Calls(settings, w, calls[..n], services);
      if !mid.phase.Failed? {
        OneCallIsTold(settings, mid, calls[n], services);
      }
    }
  }

  lemma OneCallIsTold(settings: Settings, mid: World, call: Call, services: nat -> Services)
    requires Keyed(settings.manifests) && !mid.phase.Failed? && Accounted(mid)
    ensures var after := CallOne(settings, mid, call, services); Accounted(after) && mid.log <= after.log
  {
    hide ExecuteToolCall, AccountedBy, Absorb, Told, BreaksLast;
    var key := |mid.state.records|;
    var o := ExecuteToolCall(settings, call, key, services(key));
    var parts :| AccountedBy(mid.state, mid.log, parts) && Together(parts) == mid.log;
    CallIsTold(settings, call, key, services(key));
    BreaksLater(mid.log, o.effects, o.raised);
    AsManyParts(mid.state, mid.log, parts);
    if o.raised {
      LongerLog(mid.state, mid.log, parts, o.effects);
      assert AccountedBy(mid.state, mid.log + o.effects, parts);
    } else {
      AbsorbedIsTold(mid.state, mid.log, parts, call, o);
    }
  }

  lemma AsManyParts(s: State, log: seq<Effect>, parts: seq<seq<Effect>>)
    requires AccountedBy(s, log, parts)
    ensures |parts| == |s.records|
  {}

  lemma LongerLog(s: State, log: seq<Effect>, parts: seq<seq<Effect>>, more: seq<Effect>)
    requires AccountedBy(s, log, parts)
    ensures AccountedBy(s, log + more, parts)
  {
    hide ToldAt;
  }

  lemma SameAnswers(s: State, s': State, log: seq<Effect>, parts: seq<seq<Effect>>)
    requires AccountedBy(s, log, parts) && s'.records == s.records && s'.requests == s.requests
    requires Results(s'.messages) == Results(s.messages)
    ensures AccountedBy(s', log, parts)
  {
    hide Told;
    forall k | 0 <= k < |parts| ensures ToldAt(s', parts, k) {
      assert ToldAt(s, parts, k);
    }
  }

  lemma ActIsTold(settings: Settings, w: World, services: nat -> Services)
    requires Keyed(settings.manifests) && !w.phase.Failed? && Accounted(w)
    ensures Accounted(Act(settings, w, services))
  {
    hide Calls, AccountedBy, BreaksLast;
    CallsAreTold(settings, w, w.state.pending, services);
    var after := Calls(settings, w, w.state.pending, services);
    if after.phase.Failed? {
      var parts :| AccountedBy(w.state, w.log, parts) && Together(parts) == w.log;
      LongerLog(w.state, w.log, parts, after.log[|w.log|..]);
      assert w.log + after.log[|w.log|..] == after.log;
    } else {
      var parts :| AccountedBy(after.state, after.log, parts) && Together(parts) == after.log;
      SameAnswers(after.state, Act(settings, w, services).state, after.log, parts);
    }
  }

  lemma RespondIsTold(settings: Settings, w: World, context: bool, reply: ModelReply)
    requires !w.phase.Failed? && Accounted(w)
    ensures Results(Respond(settings, w.state, context, reply).messages) == Results(w.state.messages)
    ensures Respond(settings, w.state, context, reply).records == w.state.records
    ensures Respond(settings, w.state, context, reply).requests == w.state.requests
  {
    var opening := if context then [System, System, User] else [System, User];
    NoResults(opening);
    var start := if w.state.messages != [] then w.state.messages else opening;
    ResultsOneMore(start, if reply.calls != [] then Requests(reply.calls) else Assistant(reply.text));
  }

  lemma {:induction false} NoResults(ms: seq<Message>)
    requires forall m <- ms :: !m.ToolResult?
    ensures Results(ms) == []
  {
    if ms != [] {
      assert ms[|ms| - 1] in ms;
      NoResults(ms[..|ms| - 1]);
    }
  }

  lemma {:induction false} RunIsAccounted(
      settings: Settings, context: bool, replies: nat -> ModelReply, services: nat -> Services, n: nat)
    requires Keyed(settings.manifests)
    ensures Accounted(Run(settings, context, replies, services, n))
  {
    hide Act, Respond, AccountedBy, BreaksLast;
    if n == 0 {
      StartIsAccounted();
    } else {
      RunIsAccounted(settings, context, replies, services, n - 1);
      var w := Run(settings, context, replies, services, n - 1);
      match w.phase {
        case Responding =>
          var reply := replies(w.responds);
          var parts :| AccountedBy(w.state, w.log, parts) && Together(parts) == w.log;
          RespondIsTold(settings, w, context, reply);
          SameAnswers(w.state, Respond(settings, w.state, context, reply), w.log, parts);
        case Acting => ActIsTold(settings, w, services);
        case _ =>
      }
    }
  }

  lemma StartIsAccounted()
    ensures Accounted(START)
  {
    assert AccountedBy(START.state, START.log, []) && Together([]) == START.log;
  }

  // What the model is told of each of its calls follows from what that call did: the log falls into one part for each
  // recorded call, in order, and the k-th tool message and record report the k-th part. Executed(ref) is said exactly when
  // its execute came back with that reference, AwaitingApproval exactly when its clean preview asked for one, Answer exactly
  // when its search or query came back, Failure in every other case, and only Failure is recorded as an error. A run that
  // raised reports the acts before the one that did. The requests on record are those of the clean previews. And a run fails
  // exactly when a service raises, which is the last thing it does.
  lemma ToolAnswersAreTruthful(
      settings: Settings, context: bool, replies: nat -> ModelReply, services: nat -> Services, n: nat)
      returns (parts: seq<seq<Effect>>)
    requires Keyed(settings.manifests)
    ensures var w := Run(settings, context, replies, services, n);
            && |parts| == |w.state.records| == |Results(w.state.messages)|
            && Together(parts) <= w.log && (!w.phase.Failed? ==> Together(parts) == w.log)
            && (forall k | 0 <= k < |parts| :: ToldAt(w.state, parts, k))
            && w.state.requests == Filed(parts)
            && (w.phase.Failed? ==> w.log != [])
            && forall k | 0 <= k < |w.log| :: Broke(w.log[k]) <==> w.phase.Failed? && k == |w.log| - 1
  {
    hide Run, ToldAt, Broke;
    RunIsAccounted(settings, context, replies, services, n);
    var w := Run(settings, context, replies, services, n);
    parts :| AccountedBy(w.state, w.log, parts) && (w.phase.Failed? || Together(parts) == w.log);
  }
}
