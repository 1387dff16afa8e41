/**
 What the tool calls of one agent run leave on record, and how often one job can
 execute a mutation: every harness call of a job is an agent run of its own, with
 fresh idempotency keys.
 */
module JobEffects {
  import opened Wrappers
  import opened Sums
  import opened Policy
  import opened Agent
  import opened AgentProofs
  import J = Jobs
  import JP = JobProofs

  function ExecuteCount(e: Effect): int
  {
    if e.Execute? then 1 else 0
  }

  function Executes(log: seq<Effect>): int
  {
    Sum(log, ExecuteCount)
  }

  // ---- One run: how many executes ---------------------------------------------------------

  lemma OneCallOneExecute(settings: Settings, call: Call, key: nat, services: Services)
    ensures Executes(ExecuteToolCall(settings, call, key, services).effects) <= 1
  {
    hide ExecuteToolCall, Executes;
    AtMostOneExecute(settings, call, key, services);
    FewExecutes(ExecuteToolCall(settings, call, key, services).effects);
  }

  // A call makes at most two effects, and only the second can be an execute when there are two.
  lemma AtMostOneExecute(settings: Settings, call: Call, key: nat, services: Services)
    ensures var effects := ExecuteToolCall(settings, call, key, services).effects;
            |effects| <= 2 && (|effects| == 2 ==> !effects[0].Execute?)
  {
    hide CheckedArgs;
  }

  lemma FewExecutes(effects: seq<Effect>)
    requires |effects| <= 2 && (|effects| == 2 ==> !effects[0].Execute?)
    ensures Executes(effects) <= 1
  {
    if |effects| > 0 {
      var first := [effects[0]];
      SumAppend([], effects[0], ExecuteCount);
      assert [] + first == first;
      if |effects| == 1 {
        assert effects == first;
      } else {
        SumAppend(first, effects[1], ExecuteCount);
        assert effects == first + [effects[1]];
      }
    }
  }

  lemma {:induction false} CallsExecuteAtMost(settings: Settings, w: World, calls: seq<Call>, services: nat -> Services)
    ensures Executes(Calls(settings, w, calls, services).log) <= Executes(w.log) + |calls|
  {
    hide ExecuteToolCall, Sum;
    if calls != [] {
      var n := |calls| - 1;
      CallsExecuteAtMost(settings, w, calls[..n], services);
      var mid := Calls(settings, w, calls[..n], services);
      if !mid.phase.Failed? {
        var key := |mid.state.records|;
        var effects := ExecuteToolCall(settings, calls[n], key, services(key)).effects;
        OneCallOneExecute(settings, calls[n], key, services(key));
        SumConcat(mid.log, effects, ExecuteCount);
      }
    }
  }

  predicate AsksAtMost(replies: nat -> ModelReply, c: nat)
  {
    |replies(0).calls| <= c && |replies(1).calls| <= c
  }

  // Acts done and executes made, for a model that answers plainly once it is offered no tools.
  predicate WithinBudget(w: World, c: nat)
  {
    && w.acts <= MAX_TOOL_ITERATIONS
    && (w.phase.Responding? ==> w.responds == w.acts)
    && (w.phase.Acting? ==> w.responds == w.acts + 1 <= MAX_TOOL_ITERATIONS && |w.state.pending| <= c)
    && Executes(w.log) <= w.acts * c
  }

  lemma {:induction false} RunWithinBudget(
      settings: Settings, context: bool, replies: nat -> ModelReply, services: nat -> Services, n: nat, c: nat)
    requires Cooperative(replies) && AsksAtMost(replies, c)
    ensures WithinBudget(Run(settings, context, replies, services, n), c)
  {
    hide Step, WithinBudget;
    if n == 0 {
      NoExecutes(c);
    } else {
      RunWithinBudget(settings, context, replies, services, n - 1, c);
      var w := Run(settings, context, replies, services, n - 1);
      if w.phase.Acting? {
        ActWithinBudget(settings, w, services, c);
      }
      StepWithinBudget(settings, w, context, replies, services, c);
    }
  }

  lemma ActWithinBudget(settings: Settings, w: World, services: nat -> Services, c: nat)
    requires WithinBudget(w, c) && w.phase.Acting?
    ensures WithinBudget(Act(settings, w, services), c)
  {
    hide Calls, Sum;
    CallsExecuteAtMost(settings, w, w.state.pending, services);
    CallsKeepCount(settings, w, w.state.pending, services);
    assert (w.acts + 1) * c == w.acts * c + c;
  }

  lemma StepWithinBudget(
      settings: Settings, w: World, context: bool, replies: nat -> ModelReply, services: nat -> Services, c: nat)
    requires Cooperative(replies) && AsksAtMost(replies, c) && WithinBudget(w, c)
    requires w.phase.Acting? ==> WithinBudget(Act(settings, w, services), c)
    ensures WithinBudget(Step(settings, w, context, replies, services), c)
  {
    hide Act, Sum;
  }

  lemma NoExecutes(c: nat)
    ensures WithinBudget(START, c)
  {}

  // ---- One run: which executes are on record -----------------------------------------------

  // The audit rows a run commits: all it recorded when the graph returned and the transaction held, none otherwise.
  function CommittedRequests(w: World, persisted: bool): seq<MutationRequest>
  {
    if w.phase.Finished? && persisted then w.state.requests else []
  }

  ghost predicate OnCommittedRecord(w: World, persisted: bool, e: Effect)
  {
    e.Execute? ==> exists j :: RecordedAt(CommittedRequests(w, persisted), j, e)
  }

  // For a run that ended: every execute it made is on the committed record exactly when the run finished and its
  // transaction held, or it made none.
  lemma EveryExecuteIsOnRecordExactly(
      settings: Settings, context: bool, replies: nat -> ModelReply, services: nat -> Services, n: nat, persisted: bool)
    requires Keyed(settings.manifests) && KeepsScope(settings)
    requires var w := Run(settings, context, replies, services, n); w.phase.Finished? || w.phase.Failed?
    ensures var w := Run(settings, context, replies, services, n);
            (forall k | 0 <= k < |w.log| :: OnCommittedRecord(w, persisted, w.log[k]))
            <==> (w.phase.Finished? && persisted) || forall k | 0 <= k < |w.log| :: !w.log[k].Execute?
  {
    hide Run, KeepsScope, Lawful, Transcript;
    RunKeepsInv(settings, context, replies, services, n);
    var w := Run(settings, context, replies, services, n);
    if w.phase.Finished? && persisted {
      forall k | 0 <= k < |w.log| ensures OnCommittedRecord(w, persisted, w.log[k]) {
        assert OnRecord(w.state, w.log[k]);
        if w.log[k].Execute? {
          var j :| RecordedAt(w.state.requests, j, w.log[k]);
          assert RecordedAt(CommittedRequests(w, persisted), j, w.log[k]);
        }
      }
    } else {
      forall k | 0 <= k < |w.log| && OnCommittedRecord(w, persisted, w.log[k]) ensures !w.log[k].Execute? {}
    }
  }

  // ---- One run: its keys -------------------------------------------------------------------

  // Executes carry ever later keys, all of calls already counted or of the one that raised.
  ghost predicate KeysRise(log: seq<Effect>, next: nat)
  {
    && (forall k | 0 <= k < |log| && log[k].Execute? :: log[k].key < next)
    && (forall i, j | 0 <= i < j < |log| && log[i].Execute? && log[j].Execute? :: log[i].key < log[j].key)
  }

  lemma CallKeysRise(settings: Settings, log: seq<Effect>, call: Call, key: nat, services: Services)
    requires KeysRise(log, key)
    ensures KeysRise(log + ExecuteToolCall(settings, call, key, services).effects, key + 1)
  {
    hide CheckedArgs;
    var effects := ExecuteToolCall(settings, call, key, services).effects;
    assert forall k | 0 <= k < |effects| && effects[k].Execute? :: effects[k].key == key && k == 1;
  }

  ghost predicate KeysRisen(w: World)
  {
    exists next :: KeysRise(w.log, next) && (w.phase.Failed? || next == |w.state.records|)
  }

  lemma {:induction false} CallsKeysRise(settings: Settings, w: World, calls: seq<Call>, services: nat -> Services)
    requires KeysRisen(w) && !w.phase.Failed?
    ensures KeysRisen(Calls(settings, w, calls, services))
  {
    hide ExecuteToolCall, KeysRise;
    if calls != [] {
      var n := |calls| - 1;
      CallsKeysRise(settings, w, calls[..n], services);
      var mid := Calls(settings, w, calls[..n], services);
      if !mid.phase.Failed? {
        var key := |mid.state.records|;
        CallKeysRise(settings, mid.log, calls[n], key, services(key));
        assert KeysRise(Calls(settings, w, calls, services).log, key + 1);
      }
    }
  }

  lemma {:induction false} RunKeysRise(
      settings: Settings, context: bool, replies: nat -> ModelReply, services: nat -> Services, n: nat)
    ensures KeysRisen(Run(settings, context, replies, services, n))
  {
    hide Calls, KeysRise;
    if n == 0 {
      NoKeys();
    } else {
      RunKeysRise(settings, context, replies, services, n - 1);
      var w := Run(settings, context, replies, services, n - 1);
      if w.phase.Acting? {
        CallsKeysRise(settings, w, w.state.pending, services);
        var next :| KeysRise(Calls(settings, w, w.state.pending, services).log, next);
        assert KeysRise(Run(settings, context, replies, services, n).log, next);
      }
    }
  }

  lemma NoKeys()
    ensures KeysRise([], 0)
  {}

  // ---- A job -------------------------------------------------------------------------------

  // One harness call: an agent run under the decision it computes, watched for n steps.
  datatype HarnessCall = HarnessCall(
    settings: Settings, context: bool, replies: nat -> ModelReply, services: nat -> Services, n: nat)
  {
    function World(): Agent.World
    {
      Run(settings, context, replies, services, n)
    }

    predicate Modest(c: nat)
    {
      Cooperative(replies) && AsksAtMost(replies, c)
    }
  }

  function ExecutesOf(call: HarnessCall): int
  {
    Executes(call.World().log)
  }

  function JobExecutes(calls: seq<HarnessCall>): int
  {
    Sum(calls, ExecutesOf)
  }

  lemma {:induction false} CallsTimesExecutes(calls: seq<HarnessCall>, c: nat)
    requires forall call <- calls :: call.Modest(c)
    ensures JobExecutes(calls) <= |calls| * (MAX_TOOL_ITERATIONS * c)
  {
    hide HarnessCall.World, HarnessCall.Modest, Executes;
    if calls != [] {
      var n := |calls| - 1;
      var (init, last) := (calls[..n], calls[n]);
      forall call | call in init ensures call in calls {}
      CallsTimesExecutes(init, c);
      assert last in calls;
      OneRunExecutes(last, c);
      assert |calls| * (MAX_TOOL_ITERATIONS * c) == n * (MAX_TOOL_ITERATIONS * c) + MAX_TOOL_ITERATIONS * c;
    }
  }

  lemma OneRunExecutes(call: HarnessCall, c: nat)
    requires call.Modest(c)
    ensures ExecutesOf(call) <= MAX_TOOL_ITERATIONS * c
  {
    hide Run, Sum;
    RunWithinBudget(call.settings, call.context, call.replies, call.services, call.n, c);
    var acts := call.World().acts;
    assert acts * c <= MAX_TOOL_ITERATIONS * c;
  }

  // Whatever is lost, redelivered or raised: a job whose model answers plainly once it is offered no tools, and asks for
  // at most c calls at a time, sends at most 8c executes, and 8c more for each redelivery.
  lemma JobExecutesAreBounded(events: seq<J.Event>, s: J.State, calls: seq<HarnessCall>, c: nat)
    requires J.Run(J.INITIAL, events) == Some(s) && |calls| == s.shared.calls
    requires forall call <- calls :: call.Modest(c)
    ensures JobExecutes(calls) <= 8 * c * (1 + s.redeliveries)
  {
    hide J.Run, JobExecutes, HarnessCall.Modest;
    JP.CallsAreBounded(events, s);
    CallsTimesExecutes(calls, c);
    var r := s.redeliveries;
    assert |calls| * (MAX_TOOL_ITERATIONS * c) <= (4 * (1 + r)) * (MAX_TOOL_ITERATIONS * c);
    assert (4 * (1 + r)) * (MAX_TOOL_ITERATIONS * c) == 8 * c * (1 + r);
  }

  // No two executes of a run share a key, raised or not, so none of them is answered from the replay map for another.
  lemma ExecutesHaveTheirOwnKeys(call: HarnessCall, j: nat, k: nat)
    requires var log := call.World().log; j < k < |log| && log[j].Execute? && log[k].Execute?
    ensures call.World().log[j].key != call.World().log[k].key
  {
    hide Run;
    RunKeysRise(call.settings, call.context, call.replies, call.services, call.n);
  }

  // ---- The bound is met ----------------------------------------------------------------------

  const PAY: Call := Call("c", "pay", map[])

  const PAY_SETTINGS: Settings :=
    Settings(map["pay" := Tool("pay", Mutation, "hr", [], Self, None)], Decision(["pay"], [], map[]), None, (t, args) => Some(args))

  function PayReplies(c: nat): nat -> ModelReply
  {
    (j: nat) => ModelReply("", if j < MAX_TOOL_ITERATIONS then seq(c, _ => PAY) else [])
  }

  function PayServices(): nat -> Services
  {
    (key: nat) => Services(Done(()), Done(()), Done(Previewed([], false, 0)), Done("ref"))
  }

  lemma OnePayment(key: nat)
    ensures var o := ExecuteToolCall(PAY_SETTINGS, PAY, key, PayServices()(key));
            !o.raised && Executes(o.effects) == 1
  {
    var o := ExecuteToolCall(PAY_SETTINGS, PAY, key, PayServices()(key));
    assert o.effects == [o.effects[0]] + [o.effects[1]] && [o.effects[0]] == [] + [o.effects[0]];
    SumAppend([], o.effects[0], ExecuteCount);
    SumAppend([o.effects[0]], o.effects[1], ExecuteCount);
  }

  // Every call of an act executes.
  lemma {:induction false} PaymentsExecute(w: World, calls: seq<Call>)
    requires !w.phase.Failed? && forall call <- calls :: call == PAY
    ensures var after := Calls(PAY_SETTINGS, w, calls, PayServices());
            after.phase == w.phase && Executes(after.log) == Executes(w.log) + |calls|
  {
    hide ExecuteToolCall, Sum;
    if calls != [] {
      var n := |calls| - 1;
      forall call | call in calls[..n] ensures call in calls {}
      assert calls[n] in calls;
      PaymentsExecute(w, calls[..n]);
      var mid := Calls(PAY_SETTINGS, w, calls[..n], PayServices());
      var key := |mid.state.records|;
      OnePayment(key);
      SumConcat(mid.log, ExecuteToolCall(PAY_SETTINGS, PAY, key, PayServices()(key)).effects, ExecuteCount);
    }
  }

  lemma {:induction false} TurnsExecute(c: nat, r: nat)
    requires c > 0 && r <= MAX_TOOL_ITERATIONS
    ensures var w := Run(PAY_SETTINGS, false, PayReplies(c), PayServices(), 2 * r);
            w.phase.Responding? && w.responds == r && Executes(w.log) == r * c
  {
    hide Run, Step, Sum;
    if r == 0 {
      NothingRun(c);
    } else {
      TurnsExecute(c, r - 1);
      TwoSteps(c, 2 * (r - 1));
      TurnExecutes(c, Run(PAY_SETTINGS, false, PayReplies(c), PayServices(), 2 * (r - 1)));
      assert 2 * (r - 1) + 2 == 2 * r;
      assert r * c == (r - 1) * c + c;
    }
  }

  lemma NothingRun(c: nat)
    ensures Run(PAY_SETTINGS, false, PayReplies(c), PayServices(), 0) == START && Executes(START.log) == 0
  {}

  lemma TwoSteps(c: nat, n: nat)
    ensures Run(PAY_SETTINGS, false, PayReplies(c), PayServices(), n + 2)
            == var w := Run(PAY_SETTINGS, false, PayReplies(c), PayServices(), n);
               Step(PAY_SETTINGS, Step(PAY_SETTINGS, w, false, PayReplies(c), PayServices()), false, PayReplies(c), PayServices())
  {
    hide Step;
  }

  lemma TurnExecutes(c: nat, w: World)
    requires c > 0 && w.phase.Responding? && w.responds < MAX_TOOL_ITERATIONS
    ensures var w1 := Step(PAY_SETTINGS, w, false, PayReplies(c), PayServices());
            var w2 := Step(PAY_SETTINGS, w1, false, PayReplies(c), PayServices());
            w2.phase.Responding? && w2.responds == w.responds + 1 && Executes(w2.log) == Executes(w.log) + c
  {
    hide Calls, Sum;
    var w1 := Step(PAY_SETTINGS, w, false, PayReplies(c), PayServices());
    PaymentsExecute(w1, w1.state.pending);
    CallsKeepCount(PAY_SETTINGS, w1, w1.state.pending, PayServices());
  }

  const PAID_STEPS: nat := 5

  function Paid(c: nat): HarnessCall
  {
    HarnessCall(PAY_SETTINGS, false, PayReplies(c), PayServices(), PAID_STEPS)
  }

  lemma PaidExecutes(c: nat)
    requires c > 0
    ensures Paid(c).Modest(c) && Paid(c).World().phase.Finished? && ExecutesOf(Paid(c)) == MAX_TOOL_ITERATIONS * c
  {
    hide Act, Sum;
    TurnsExecute(c, MAX_TOOL_ITERATIONS);
    assert PAID_STEPS - 1 == 2 * MAX_TOOL_ITERATIONS;
  }

  // One attempt whose answer is lost, and the wait before the next.
  lemma AttemptLost(events: seq<J.Event>, s: J.State, a: nat) returns (events': seq<J.Event>, s': J.State)
    requires J.Run(J.INITIAL, events) == Some(s) && a < J.MAX_ATTEMPTS
    requires s.ready == [a] && s.shared.held == [] && J.Claimable(s.shared.status)
    ensures J.Run(J.INITIAL, events') == Some(s')
    ensures s'.ready == [a + 1] && s'.shared.held == [] && s'.shared.status.Failed?
    ensures s'.shared.calls == s.shared.calls + 1 && s'.redeliveries == s.redeliveries
  {
    hide J.Run;
    var w := |s.workers|;
    events', s' := JP.Then(events, s, J.Deliver(0));
    events', s' := JP.Then(events', s', J.Step(w, J.Returned));
    events', s' := JP.Then(events', s', J.Step(w, J.Outcome.Refused(true)));
    events', s' := JP.Then(events', s', J.Step(w, J.Returned));
    events', s' := JP.Then(events', s', J.Step(w, J.Returned));
    events', s' := JP.Then(events', s', J.Expire(0));
  }

  // A job three of whose answers are lost: it succeeds, without one redelivery, and has sent 8c executes.
  lemma JobExecutesReachTheBound(c: nat) returns (events: seq<J.Event>, s: J.State, calls: seq<HarnessCall>)
    requires c > 0
    ensures J.Run(J.INITIAL, events) == Some(s) && s.shared.status.Succeeded? && s.redeliveries == 0
    ensures |calls| == s.shared.calls && forall call <- calls :: call.Modest(c) && call.World().phase.Finished?
    ensures JobExecutes(calls) == 8 * c
  {
    hide J.Run, HarnessCall.World, HarnessCall.Modest, ExecutesOf;
    events, s := [], J.INITIAL;
    JobStarts();
    events, s := AttemptLost(events, s, 0);
    events, s := AttemptLost(events, s, 1);
    events, s := AttemptLost(events, s, 2);
    var w := |s.workers|;
    events, s := JP.Then(events, s, J.Deliver(0));
    events, s := JP.Then(events, s, J.Step(w, J.Returned));
    events, s := JP.Then(events, s, J.Step(w, J.Returned));
    events, s := JP.Then(events, s, J.Step(w, J.Returned));
    var paid := Paid(c);
    PaidExecutes(c);
    calls := [paid, paid, paid, paid];
    FourTimes(paid);
  }

  lemma JobStarts()
    ensures J.Run(J.INITIAL, []) == Some(J.INITIAL)
  {}

  lemma FourTimes(call: HarnessCall)
    ensures JobExecutes([call, call, call, call]) == 4 * ExecutesOf(call)
  {
    hide ExecutesOf;
    assert [call, call, call, call] == [] + [call] + [call] + [call] + [call];
    SumAppend([], call, ExecutesOf);
    SumAppend([] + [call], call, ExecutesOf);
    SumAppend([] + [call] + [call], call, ExecutesOf);
    SumAppend([] + [call] + [call] + [call], call, ExecutesOf);
  }
}
