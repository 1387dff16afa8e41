/** What every run of the agent loop keeps, whatever the model and the services answer. */
module AgentProofs {
  import opened Wrappers
  import opened Policy
  import opened Agent

  // ---- What leaves the harness -------------------------------------------------

  lemma CallIsLawful(settings: Settings, call: Call, key: nat, services: Services)
    requires Keyed(settings.manifests) && KeepsScope(settings)
    ensures Lawful(settings, ExecuteToolCall(settings, call, key, services).effects)
  {
    var checked := CheckedArgs(settings, call);
    if checked.Some? {
      CheckedIsAuthorized(settings, call);
    }
  }

  lemma CheckedIsAuthorized(settings: Settings, call: Call)
    requires Keyed(settings.manifests) && KeepsScope(settings) && CheckedArgs(settings, call).Some?
    ensures Authorized(settings, call.name, CheckedArgs(settings, call).value)
    ensures settings.manifests[call.name].name == call.name
  {
    var tool := settings.manifests[call.name];
    if tool.scopeParam.Some? && tool.scopeParam.value != "" {
      var args := ApplyScopeDefault(call.args, tool.scopeParam.value, settings.employeeId);
      assert KeepsScopeOf(tool, args, settings.validate(tool, args));
    }
  }

  lemma LawfulAppend(settings: Settings, a: seq<Effect>, b: seq<Effect>)
    requires Lawful(settings, a) && Lawful(settings, b)
    ensures Lawful(settings, a + b)
  {
    hide Authorized;
    forall k | 0 <= k < |a + b| ensures LawfulAt(settings, a + b, k) {
      if k < |a| {
        assert LawfulAt(settings, a, k);
      } else {
        assert LawfulAt(settings, b, k - |a|);
      }
    }
  }

  // ---- The transcript ------------------------------------------------------------

  // Every request for tools is answered right after it, call by call, and nothing else answers.
  ghost predicate Transcript(ms: seq<Message>)
  {
    && (forall i | 0 <= i < |ms| && ms[i].Requests? :: AnsweredAt(ms, i))
    && (forall j | 0 <= j < |ms| && ms[j].ToolResult? :: exists i :: AnswersTo(ms, i, j))
  }

  ghost predicate AnsweredAt(ms: seq<Message>, i: int)
    requires 0 <= i < |ms| && ms[i].Requests?
  {
    var calls := ms[i].calls;
    && i + |calls| < |ms|
    && forall j | i < j <= i + |calls| :: ms[j].ToolResult? && ms[j].callId == calls[j - i - 1].id
  }

  ghost predicate AnswersTo(ms: seq<Message>, i: int, j: int)
  {
    0 <= i < j < |ms| && ms[i].Requests? && j <= i + |ms[i].calls|
  }

  // `results` answers the first |results| of `calls`, in order.
  ghost predicate Answering(results: seq<Message>, calls: seq<Call>)
  {
    && |results| == |calls|
    && forall k | 0 <= k < |calls| :: results[k].ToolResult? && results[k].callId == calls[k].id
  }

  lemma TranscriptTurn(ms: seq<Message>, calls: seq<Call>, results: seq<Message>)
    requires Transcript(ms) && Answering(results, calls)
    ensures Transcript(ms + [Requests(calls)] + results)
  {
    var all := ms + [Requests(calls)] + results;
    forall i | 0 <= i < |all| && all[i].Requests? ensures AnsweredAt(all, i) {
      if i < |ms| {
        assert AnsweredAt(ms, i);
      }
    }
    forall j | 0 <= j < |all| && all[j].ToolResult? ensures exists i :: AnswersTo(all, i, j) {
      if j < |ms| {
        var i :| AnswersTo(ms, i, j);
        assert AnswersTo(all, i, j);
      } else {
        assert AnswersTo(all, |ms|, j);
      }
    }
  }

  lemma TranscriptPlain(ms: seq<Message>, m: Message)
    requires Transcript(ms) && !m.Requests? && !m.ToolResult?
    ensures Transcript(ms + [m])
  {
    var all := ms + [m];
    forall i | 0 <= i < |all| && all[i].Requests? ensures AnsweredAt(all, i) {
      assert AnsweredAt(ms, i);
    }
    forall j | 0 <= j < |all| && all[j].ToolResult? ensures exists i :: AnswersTo(all, i, j) {
      var i :| AnswersTo(ms, i, j);
      assert AnswersTo(all, i, j);
    }
  }

  // ---- The books: what the state reports against the log ---------------------------

  predicate BooksMatch(s: State, log: seq<Effect>)
  {
    s.previewed == CleanPreviews(log) && s.executed == Executions(log)
  }

  lemma NotesMatch(log: seq<Effect>, settings: Settings, call: Call, key: nat, services: Services)
    requires var o := ExecuteToolCall(settings, call, key, services); !o.raised
    ensures var o := ExecuteToolCall(settings, call, key, services);
            && CleanPreviews(log + o.effects) == Noted(CleanPreviews(log), o.previewed)
            && Executions(log + o.effects) == Noted(Executions(log), o.executed)
  {
    hide CheckedArgs, CleanPreviews, Executions;
    var effects := ExecuteToolCall(settings, call, key, services).effects;
    if |effects| == 0 {
      assert log + effects == log;
    } else {
      NoteOne(log, effects[0]);
      if |effects| == 1 {
        assert log + effects == log + [effects[0]];
      } else {
        NoteOne(log + [effects[0]], effects[1]);
        assert log + effects == log + [effects[0]] + [effects[1]];
      }
    }
  }

  lemma NoteOne(log: seq<Effect>, e: Effect)
    ensures CleanPreviews(log + [e]) ==
            if e.Preview? && e.got.Done? && e.got.value.errors == [] then Appended(CleanPreviews(log), e.tool) else CleanPreviews(log)
    ensures Executions(log + [e]) == if e.Execute? && e.res.Done? then Appended(Executions(log), e.tool) else Executions(log)
  {
    assert (log + [e])[..|log|] == log;
  }

  // Every execute the run made is on record, under its key and token, with how it ended.
  ghost predicate OnRecord(s: State, e: Effect)
  {
    e.Execute? ==> exists j :: RecordedAt(s.requests, j, e)
  }

  predicate RecordedAt(requests: seq<MutationRequest>, j: int, e: Effect)
    requires e.Execute?
  {
    && 0 <= j < |requests| && requests[j].key == e.key && requests[j].token == e.token && requests[j].action == e.tool
    && requests[j].status == (if e.res.Done? then ExecutedNow(e.res.value) else FailedNow)
  }

  predicate KeysIncrease(s: State)
  {
    && (forall j | 0 <= j < |s.requests| :: s.requests[j].key < |s.records|)
    && (forall i, j | 0 <= i < j < |s.requests| :: s.requests[i].key < s.requests[j].key)
  }

  ghost predicate Recorded(s: State, log: seq<Effect>)
  {
    KeysIncrease(s) && forall k | 0 <= k < |log| :: OnRecord(s, log[k])
  }

  lemma CallIsRecorded(settings: Settings, s: State, log: seq<Effect>, call: Call, services: Services)
    requires Recorded(s, log)
    requires !ExecuteToolCall(settings, call, |s.records|, services).raised
    ensures var o := ExecuteToolCall(settings, call, |s.records|, services);
            Recorded(Absorb(s, call, o, call.name), log + o.effects)
  {
    hide CheckedArgs;
    var o := ExecuteToolCall(settings, call, |s.records|, services);
    var (s', log') := (Absorb(s, call, o, call.name), log + o.effects);
    forall k | 0 <= k < |log'| ensures OnRecord(s', log'[k]) {
      if k < |log| {
        assert OnRecord(s, log[k]);
        if log[k].Execute? {
          var j :| RecordedAt(s.requests, j, log[k]);
          assert RecordedAt(s'.requests, j, log[k]);
        }
      } else if log'[k].Execute? {
        assert RecordedAt(s'.requests, |s.requests|, log'[k]);
      }
    }
  }

  // ---- The invariant ---------------------------------------------------------------

  predicate OnlyAllowed(settings: Settings, offered: set<string>)
  {
    forall n <- offered :: n in settings.decision.allowed && n in settings.manifests
  }

  ghost predicate Sound(settings: Settings, s: State, log: seq<Effect>)
  {
    BooksMatch(s, log) && Recorded(s, log) && OnlyAllowed(settings, s.offered)
  }

  ghost predicate Inv(settings: Settings, w: World)
  {
    && Lawful(settings, w.log)
    && (!w.phase.Failed? ==> Sound(settings, w.state, w.log))
    && (w.phase.Responding? ==> Transcript(w.state.messages))
    && (w.phase.Finished? ==> Transcript(w.state.messages))
    && (w.phase.Acting? ==> Asking(w.state))
  }

  ghost predicate Asking(s: State)
  {
    s.pending != [] && |s.messages| > 0 && s.messages[|s.messages| - 1] == Requests(s.pending)
    && Transcript(s.messages[..|s.messages| - 1])
  }

  // Inside an act: the first |calls| pending calls are done.
  ghost predicate Midway(settings: Settings, w: World, calls: seq<Call>, after: World)
  {
    && Lawful(settings, after.log) && after.state.iterations == w.state.iterations
    && after.responds == w.responds
    && (after.phase.Failed? ||
        (after.phase == w.phase && Sound(settings, after.state, after.log) && Answered(w.state.messages, calls, after.state.messages)))
  }

  ghost predicate Answered(before: seq<Message>, calls: seq<Call>, after: seq<Message>)
  {
    |after| == |before| + |calls| && after[..|before|] == before && Answering(after[|before|..], calls)
  }

  lemma CallOneKeeps(settings: Settings, w: World, calls: seq<Call>, mid: World, call: Call, services: nat -> Services)
    requires Keyed(settings.manifests) && KeepsScope(settings)
    requires Midway(settings, w, calls, mid) && !mid.phase.Failed? && !w.phase.Failed?
    ensures Midway(settings, w, calls + [call], CallOne(settings, mid, call, services))
  {
    hide ExecuteToolCall, Lawful, Recorded, KeepsScope, CleanPreviews, Executions;
    var key := |mid.state.records|;
    var o := ExecuteToolCall(settings, call, key, services(key));
    CallIsLawful(settings, call, key, services(key));
    LawfulAppend(settings, mid.log, o.effects);
    if !o.raised {
      NotesMatch(mid.log, settings, call, key, services(key));
      CallIsRecorded(settings, mid.state, mid.log, call, services(key));
    }
  }

  lemma {:induction false} CallsKeep(settings: Settings, w: World, calls: seq<Call>, services: nat -> Services)
    requires Keyed(settings.manifests) && KeepsScope(settings)
    requires Lawful(settings, w.log) && Sound(settings, w.state, w.log) && !w.phase.Failed?
    ensures Midway(settings, w, calls, Calls(settings, w, calls, services))
  {
    hide CallOne, Lawful, Sound, Answered, KeepsScope;
    if calls == [] {
      NothingAnswered(w.state.messages);
    } else {
      var n := |calls| - 1;
      CallsKeep(settings, w, calls[..n], services);
      var mid := Calls(settings, w, calls[..n], services);
      if !mid.phase.Failed? {
        CallOneKeeps(settings, w, calls[..n], mid, calls[n], services);
        assert calls[..n] + [calls[n]] == calls;
      }
    }
  }

  lemma NothingAnswered(ms: seq<Message>)
    ensures Answered(ms, [], ms)
  {
  }

  lemma ActKeeps(settings: Settings, w: World, services: nat -> Services)
    requires Keyed(settings.manifests) && KeepsScope(settings)
    requires Inv(settings, w) && w.phase.Acting?
    ensures Inv(settings, Act(settings, w, services))
  {
    hide Lawful, KeepsScope, Calls, Transcript, Recorded;
    CallsKeep(settings, w, w.state.pending, services);
    var after := Calls(settings, w, w.state.pending, services);
    var ms := w.state.messages;
    if !after.phase.Failed? {
      TranscriptTurn(ms[..|ms| - 1], w.state.pending, after.state.messages[|ms|..]);
      assert ms[..|ms| - 1] + [Requests(w.state.pending)] == ms;
      assert ms + after.state.messages[|ms|..] == after.state.messages;
      SameRequests(after.state, after.state.(pending := [], iterations := w.state.iterations + 1), after.log);
    }
  }

  lemma SameRequests(s: State, s': State, log: seq<Effect>)
    requires Recorded(s, log) && s'.requests == s.requests && s'.records == s.records
    ensures Recorded(s', log)
  {
    forall k | 0 <= k < |log| ensures OnRecord(s', log[k]) {
      assert OnRecord(s, log[k]);
    }
  }

  lemma RespondKeeps(settings: Settings, w: World, context: bool, reply: ModelReply)
    requires Inv(settings, w) && w.phase.Responding?
    ensures var s := Respond(settings, w.state, context, reply);
            Inv(settings, World(s, w.log, if s.pending != [] then Acting else Finished, w.responds + 1, w.acts))
  {
    hide Lawful, Recorded, CleanPreviews, Executions;
    var s := Respond(settings, w.state, context, reply);
    var start := s.messages[..|s.messages| - 1];
    SameRequests(w.state, s, w.log);
    if w.state.messages != [] {
      assert start == w.state.messages;
    }
    assert Transcript(start);
    if reply.calls == [] {
      TranscriptPlain(start, Assistant(reply.text));
      assert s.messages == start + [Assistant(reply.text)];
    }
  }

  lemma {:induction false} RunKeepsInv(
      settings: Settings, context: bool, replies: nat -> ModelReply, services: nat -> Services, n: nat)
    requires Keyed(settings.manifests) && KeepsScope(settings)
    ensures Inv(settings, Run(settings, context, replies, services, n))
  {
    hide Lawful, Act, Respond, KeepsScope, Sound, Transcript;
    if n == 0 {
      StartIsSound(settings);
    } else {
      RunKeepsInv(settings, context, replies, services, n - 1);
      var w := Run(settings, context, replies, services, n - 1);
      match w.phase {
        case Responding => RespondKeeps(settings, w, context, replies(w.responds));
        case Acting => ActKeeps(settings, w, services);
        case _ =>
      }
    }
  }

  lemma StartIsSound(settings: Settings)
    ensures Inv(settings, START)
  {
  }

  // ---- Main results ------------------------------------------------------------------

  // Whatever the model asks for, every call made names an allowed tool with its scope parameter in the resolved
  // ids, and an execute only ever follows a clean, approval-free preview.
  lemma EffectsAreLawful(
      settings: Settings, context: bool, replies: nat -> ModelReply, services: nat -> Services, n: nat)
    requires Keyed(settings.manifests) && KeepsScope(settings)
    ensures Lawful(settings, Run(settings, context, replies, services, n).log)
  {
    RunKeepsInv(settings, context, replies, services, n);
  }

  // In full: with the decision authorize makes, the tool of every call is in the profile and the deployment, the caller
  // is entitled to it, and it names the caller's own record, or for a team tool one of the caller's team.
  ghost predicate Rightful(
      manifests: Manifests, profile: seq<string>, ctx: Context, readings: seq<Reading>, tool: string, args: Args)
    requires |readings| == |Candidates(profile, manifests)|
  {
    && tool in profile && tool in manifests
    && (exists k :: EntitledAt(Candidates(profile, manifests), ctx, readings, tool, k))
    && var t := manifests[tool];
       (t.scopeParam.Some? && t.scopeParam.value != "" ==> NamesOwn(t, ctx, args))
  }

  lemma AuthorizedIsRightful(
      settings: Settings, profile: seq<string>, ctx: Context, readings: seq<Reading>, tool: string, args: Args)
    requires Keyed(settings.manifests) && |readings| == |Candidates(profile, settings.manifests)|
    requires settings.decision == Decide(Candidates(profile, settings.manifests), ctx, readings)
    requires Authorized(settings, tool, args)
    ensures Rightful(settings.manifests, profile, ctx, readings, tool, args)
  {
    hide Decide, Entitled, ConstraintFor;
    var candidates := Candidates(profile, settings.manifests);
    AllowedIffEntitled(candidates, ctx, readings, tool);
    var k :| EntitledAt(candidates, ctx, readings, tool, k);
    assert candidates[k] in candidates;
    ConstraintsAreResolved(settings.manifests, candidates, ctx, readings, tool);
  }

  // The arguments a call is checked with: a scope parameter it leaves out, or gives as nothing, is the caller's own id.
  function Meant(tool: Tool, args: Args, employeeId: Option<string>): Args
  {
    if tool.scopeParam.None? || tool.scopeParam.value == "" || employeeId.None? || employeeId.value == "" then args
    else
      var p := tool.scopeParam.value;
      if p in args && args[p] != Text("") && !args[p].Falsy? then args else args[p := Text(employeeId.value)]
  }

  ghost predicate GoesOut(
      settings: Settings, profile: seq<string>, ctx: Context, readings: seq<Reading>, call: Call)
    requires |readings| == |Candidates(profile, settings.manifests)|
  {
    && call.name in profile && call.name in settings.manifests
    && (exists k :: EntitledAt(Candidates(profile, settings.manifests), ctx, readings, call.name, k))
    && var tool := settings.manifests[call.name];
       var args := Meant(tool, call.args, ctx.employeeId);
       && (tool.scopeParam.Some? && tool.scopeParam.value != "" ==> NamesOwn(tool, ctx, args))
       && settings.validate(tool, args).Some?
  }

  // A call reaches a service exactly when its tool is in the profile and the caller entitled to it, it names somebody in
  // the caller's scope and its arguments are valid; and then it goes out with the arguments meant.
  lemma CallGoesOutExactly(
      settings: Settings, profile: seq<string>, ctx: Context, readings: seq<Reading>, call: Call, key: nat, services: Services)
    requires Keyed(settings.manifests) && |readings| == |Candidates(profile, settings.manifests)|
    requires settings.decision == Decide(Candidates(profile, settings.manifests), ctx, readings)
    requires settings.employeeId == ctx.employeeId
    ensures var effects := ExecuteToolCall(settings, call, key, services).effects;
            && (effects != [] <==> GoesOut(settings, profile, ctx, readings, call))
            && (effects != [] ==>
                  var tool := settings.manifests[call.name];
                  && !effects[0].Execute? && effects[0].tool == call.name
                  && Some(effects[0].args) == settings.validate(tool, Meant(tool, call.args, ctx.employeeId)))
  {
    hide Decide, Candidates, GoesOut, Meant, CheckedArgs;
    CheckedExactly(settings, profile, ctx, readings, call);
    SendsExactly(settings, call, key, services);
  }

  lemma SendsExactly(settings: Settings, call: Call, key: nat, services: Services)
    requires Keyed(settings.manifests)
    ensures var effects := ExecuteToolCall(settings, call, key, services).effects;
            var checked := CheckedArgs(settings, call);
            && (effects != [] <==> checked.Some? && call.name in settings.manifests)
            && (effects != [] ==> !effects[0].Execute? && effects[0].tool == call.name && effects[0].args == checked.value)
  {
    hide CheckedArgs;
  }

  lemma CheckedExactly(settings: Settings, profile: seq<string>, ctx: Context, readings: seq<Reading>, call: Call)
    requires Keyed(settings.manifests) && |readings| == |Candidates(profile, settings.manifests)|
    requires settings.decision == Decide(Candidates(profile, settings.manifests), ctx, readings)
    requires settings.employeeId == ctx.employeeId
    ensures CheckedArgs(settings, call).Some? <==> GoesOut(settings, profile, ctx, readings, call)
    ensures CheckedArgs(settings, call).Some? ==>
              call.name in settings.manifests
              && var tool := settings.manifests[call.name];
                 CheckedArgs(settings, call) == settings.validate(tool, Meant(tool, call.args, ctx.employeeId))
  {
    hide Decide, EntitledAt, Candidates, NamesOwn, InScope;
    var candidates := Candidates(profile, settings.manifests);
    AllowedIffEntitled(candidates, ctx, readings, call.name);
    CandidatesAreFiled(profile, settings.manifests);
    if call.name in settings.decision.allowed {
      ConstraintsAreResolved(settings.manifests, candidates, ctx, readings, call.name);
      EntitledIsFiled(profile, settings.manifests, ctx, readings, call.name);
    }
  }

  lemma CandidatesAreFiled(profile: seq<string>, manifests: Manifests)
    requires Keyed(manifests)
    ensures forall t <- Candidates(profile, manifests) ::
              t.name in profile && t.name in manifests && manifests[t.name] == t
  {
  }

  lemma EntitledIsFiled(profile: seq<string>, manifests: Manifests, ctx: Context, readings: seq<Reading>, name: string)
    requires Keyed(manifests) && |readings| == |Candidates(profile, manifests)|
    requires exists k :: EntitledAt(Candidates(profile, manifests), ctx, readings, name, k)
    ensures name in profile && name in manifests
  {
    hide Candidates, Entitled;
    CandidatesAreFiled(profile, manifests);
    var k :| EntitledAt(Candidates(profile, manifests), ctx, readings, name, k);
    assert Candidates(profile, manifests)[k] in Candidates(profile, manifests);
  }

  lemma EveryCallIsRightful(
      settings: Settings, profile: seq<string>, ctx: Context, readings: seq<Reading>, context: bool,
      replies: nat -> ModelReply, services: nat -> Services, n: nat, k: nat)
    requires Keyed(settings.manifests) && KeepsScope(settings)
    requires |readings| == |Candidates(profile, settings.manifests)|
    requires settings.decision == Decide(Candidates(profile, settings.manifests), ctx, readings)
    requires k < |Run(settings, context, replies, services, n).log|
    ensures var log := Run(settings, context, replies, services, n).log;
            if log[k].Execute? then
              k > 0 && log[k - 1].Preview? && log[k - 1].tool == log[k].tool
              && log[k - 1].got == Done(Previewed([], false, log[k].token))
              && Rightful(settings.manifests, profile, ctx, readings, log[k].tool, log[k - 1].args)
              && settings.manifests[log[k].tool].kind.Mutation? && ctx.allowMutations
            else Rightful(settings.manifests, profile, ctx, readings, log[k].tool, log[k].args)
  {
    hide Run, Rightful, Authorized, Decide, Candidates;
    EffectsAreLawful(settings, context, replies, services, n);
    var log := Run(settings, context, replies, services, n).log;
    assert LawfulAt(settings, log, k);
    if log[k].Execute? {
      assert LawfulAt(settings, log, k - 1);
      AuthorizedIsRightful(settings, profile, ctx, readings, log[k].tool, log[k - 1].args);
      MutationsWereAllowed(settings.manifests, profile, ctx, readings, log[k].tool, log[k - 1].args);
    } else {
      AuthorizedIsRightful(settings, profile, ctx, readings, log[k].tool, log[k].args);
    }
  }

  lemma MutationsWereAllowed(
      manifests: Manifests, profile: seq<string>, ctx: Context, readings: seq<Reading>, tool: string, args: Args)
    requires Keyed(manifests) && |readings| == |Candidates(profile, manifests)|
    requires Rightful(manifests, profile, ctx, readings, tool, args) && manifests[tool].kind.Mutation?
    ensures ctx.allowMutations
  {
    var candidates := Candidates(profile, manifests);
    var k :| EntitledAt(candidates, ctx, readings, tool, k);
    assert candidates[k] in candidates;
  }

  // The message list is a transcript whenever the model is about to speak or has had the last word.
  lemma MessagesAreATranscript(
      settings: Settings, context: bool, replies: nat -> ModelReply, services: nat -> Services, n: nat)
    requires Keyed(settings.manifests) && KeepsScope(settings)
    ensures var w := Run(settings, context, replies, services, n);
            w.phase.Responding? || w.phase.Finished? ==> Transcript(w.state.messages)
  {
    RunKeepsInv(settings, context, replies, services, n);
  }

  // What the run reports is what it did: previews and executions in order, nothing offered that was not allowed,
  // every execute on record under a key of its own, and executions a sub-multiset of previews.
  lemma ReportsAreTruthful(
      settings: Settings, context: bool, replies: nat -> ModelReply, services: nat -> Services, n: nat)
    requires Keyed(settings.manifests) && KeepsScope(settings)
    requires !Run(settings, context, replies, services, n).phase.Failed?
    ensures var w := Run(settings, context, replies, services, n);
            && w.state.previewed == CleanPreviews(w.log) && w.state.executed == Executions(w.log)
            && multiset(w.state.executed) <= multiset(w.state.previewed)
            && OnlyAllowed(settings, w.state.offered) && Recorded(w.state, w.log)
  {
    hide Run;
    RunKeepsInv(settings, context, replies, services, n);
    ExecutedWerePreviewed(settings, Run(settings, context, replies, services, n).log);
  }

  lemma {:induction false} ExecutedWerePreviewed(settings: Settings, log: seq<Effect>)
    requires Lawful(settings, log)
    ensures multiset(Executions(log)) <= multiset(CleanPreviews(log))
    ensures log != [] && log[|log| - 1].Preview? ==> multiset(Executions(log)) <= multiset(CleanPreviews(log[..|log| - 1]))
  {
    hide Authorized;
    if log != [] {
      var n := |log| - 1;
      var before := log[..n];
      assert Lawful(settings, before) by {
        forall k | 0 <= k < n ensures LawfulAt(settings, before, k) { assert LawfulAt(settings, log, k); }
      }
      ExecutedWerePreviewed(settings, before);
      assert LawfulAt(settings, log, n);
      if log[n].Execute? {
        assert before[n - 1] == log[n - 1];
        assert before[..n - 1] == log[..n - 1];
      }
    }
  }

  // An approval waiting for a decision was never executed by the run that asked for it.
  lemma AwaitingWasNotExecuted(
      settings: Settings, context: bool, replies: nat -> ModelReply, services: nat -> Services, n: nat, j: nat, k: nat)
    requires Keyed(settings.manifests) && KeepsScope(settings)
    requires !Run(settings, context, replies, services, n).phase.Failed?
    requires var w := Run(settings, context, replies, services, n);
             j < |w.state.requests| && w.state.requests[j].status.Awaiting? && k < |w.log| && w.log[k].Execute?
    ensures var w := Run(settings, context, replies, services, n);
            w.log[k].key != w.state.requests[j].key
  {
    hide Run;
    RunKeepsInv(settings, context, replies, services, n);
    var w := Run(settings, context, replies, services, n);
    assert OnRecord(w.state, w.log[k]);
    var i :| RecordedAt(w.state.requests, i, w.log[k]);
  }

  // ---- How long a run lasts ------------------------------------------------------------

  // While every reply asks for tools, the loop is exactly at its r-th act or has failed.
  lemma {:induction false} KeepsGoing(
      settings: Settings, context: bool, replies: nat -> ModelReply, services: nat -> Services, r: nat)
    requires forall j: nat | j < r :: replies(j).calls != []
    ensures var w := Run(settings, context, replies, services, 2 * r);
            w.phase.Failed? || (w.phase.Responding? && w.responds == r && w.acts == r && w.state.iterations == r)
    ensures Run(settings, context, replies, services, 2 * r).acts <= r && Run(settings, context, replies, services, 2 * r).responds <= r
  {
    if r > 0 {
      KeepsGoing(settings, context, replies, services, r - 1);
      var w := Run(settings, context, replies, services, 2 * (r - 1));
      var w1 := Run(settings, context, replies, services, 2 * r - 1);
      assert w1 == Step(settings, w, context, replies, services);
      assert Run(settings, context, replies, services, 2 * r) == Step(settings, w1, context, replies, services);
      if w.phase.Responding? {
        assert replies(r - 1).calls != [];
        CallsKeepCount(settings, w1, w1.state.pending, services);
      }
    }
  }

  lemma {:induction false} CallsKeepCount(settings: Settings, w: World, calls: seq<Call>, services: nat -> Services)
    ensures var after := Calls(settings, w, calls, services);
            && after.responds == w.responds && after.acts == w.acts && after.state.iterations == w.state.iterations
            && after.state.offered == w.state.offered && after.state.output == w.state.output
  {
    hide ExecuteToolCall;
    if calls != [] {
      CallsKeepCount(settings, w, calls[..|calls| - 1], services);
    }
  }

  // The loop ends at the model's first reply without tool calls, and only there: unless a service raises, a model
  // whose r-th reply is its first plain one gets exactly r acts and r + 1 responds.
  lemma EndsAtFirstPlainReply(
      settings: Settings, context: bool, replies: nat -> ModelReply, services: nat -> Services, r: nat)
    requires (forall j: nat | j < r :: replies(j).calls != []) && replies(r).calls == []
    ensures var w := Run(settings, context, replies, services, 2 * r + 1);
            && w.acts <= r && w.responds <= r + 1
            && (w.phase.Failed? || (w.phase.Finished? && w.acts == r && w.responds == r + 1 && w.state.output == Some(replies(r).text)))
  {
    hide Act;
    KeepsGoing(settings, context, replies, services, r);
    assert Run(settings, context, replies, services, 2 * r + 1)
        == Step(settings, Run(settings, context, replies, services, 2 * r), context, replies, services);
  }

  // Whenever the model is to speak, it has had as many turns as acts were done, so its first two come with tools and the
  // later ones without; once it has spoken, the tools offered are exactly those allowed; and there is an answer exactly when
  // the run has finished, its last reply.
  lemma {:induction false} ToolsAreOfferedTwice(
      settings: Settings, context: bool, replies: nat -> ModelReply, services: nat -> Services, n: nat)
    ensures var w := Run(settings, context, replies, services, n);
            && (w.phase.Responding? ==> w.state.iterations == w.responds == w.acts)
            && (w.phase.Acting? ==> w.state.iterations + 1 == w.responds == w.acts + 1)
            && (forall t :: t in w.state.offered <==> w.responds > 0 && t in settings.decision.allowed && t in settings.manifests)
            && (w.state.output.Some? <==> w.phase.Finished?)
            && (w.phase.Finished? ==> w.responds > 0 && w.state.output == Some(replies(w.responds - 1).text))
  {
    hide Calls;
    if n > 0 {
      ToolsAreOfferedTwice(settings, context, replies, services, n - 1);
      var w := Run(settings, context, replies, services, n - 1);
      if w.phase.Acting? {
        CallsKeepCount(settings, w, w.state.pending, services);
      }
    }
  }

  // A model that answers in text once it is offered no tools is done after at most 2 acts and 3 responds.
  predicate Cooperative(replies: nat -> ModelReply)
  {
    replies(MAX_TOOL_ITERATIONS).calls == []
  }

  lemma CooperativeModelsFinish(settings: Settings, context: bool, replies: nat -> ModelReply, services: nat -> Services)
    requires Cooperative(replies)
    ensures var w := Run(settings, context, replies, services, 5);
            (w.phase.Failed? || w.phase.Finished?) && w.acts <= 2 && w.responds <= 3
  {
    hide Step;
    var r := if replies(0).calls == [] then 0 else if replies(1).calls == [] then 1 else 2;
    EndsAtFirstPlainReply(settings, context, replies, services, r);
    StaysEnded(settings, context, replies, services, 2 * r + 1, 5);
  }

  lemma {:induction false} StaysEnded(
      settings: Settings, context: bool, replies: nat -> ModelReply, services: nat -> Services, m: nat, n: nat)
    requires m <= n
    requires var w := Run(settings, context, replies, services, m); w.phase.Failed? || w.phase.Finished?
    ensures Run(settings, context, replies, services, n) == Run(settings, context, replies, services, m)
  {
    if m < n {
      StaysEnded(settings, context, replies, services, m, n - 1);
    }
  }

  // No bound holds for a model that keeps asking: act runs its calls however many iterations have passed.
  lemma StubbornModelsNeverFinish(
      settings: Settings, context: bool, replies: nat -> ModelReply, services: nat -> Services, r: nat)
    requires forall j: nat :: replies(j).calls != []
    requires !Run(settings, context, replies, services, 2 * r).phase.Failed?
    ensures Run(settings, context, replies, services, 2 * r).acts == r
    ensures Run(settings, context, replies, services, 2 * r).phase.Responding?
  {
    KeepsGoing(settings, context, replies, services, r);
  }
}
