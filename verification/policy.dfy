/**
 Which tools one run may use: the five-set intersection, the scope each
 allowed tool is bound to, and the cached killswitch it reads.
 */
module Policy {
  import opened Wrappers

  datatype ToolKind = Readonly | Mutation

  datatype DataScope = Self | Team | Department | Tenant

  datatype Tool = Tool(
    name: string, kind: ToolKind, domain: string, requiredPermissions: seq<string>,
    dataScope: DataScope, scopeParam: Option<string>)

  type Manifests = map<string, Tool>

  // The loader files every manifest under its own name.
  predicate Keyed(manifests: Manifests)
  {
    forall n <- manifests :: manifests[n].name == n
  }

  // `None` ids: unrestricted at this layer.
  datatype Constraint = Constraint(dataScope: DataScope, scopeParam: string, allowedIds: Option<seq<string>>)

  // `teamMembers` is None when the token's team list is missing or not a list.
  datatype Context = Context(
    employeeId: Option<string>, permissions: seq<string>, teamMembers: Option<seq<string>>,
    agentId: string, allowMutations: bool)

  datatype Reason =
    | MissingPermissions(missing: seq<string>)
    | MutationsNotAllowed
    | ToolKilled
    | AgentKilled
    | NoScopeIdentity

  datatype Denial = Denial(tool: string, reason: Reason)

  datatype Decision = Decision(allowed: seq<string>, denials: seq<Denial>, constraints: map<string, Constraint>)

  const EMPTY: Decision := Decision([], [], map[])

  // What the killswitch said when one candidate was checked.
  datatype Reading = Reading(toolKilled: bool, agentKilled: bool)

  // A missing id and an empty one are the same to the caller.
  predicate HasIdentity(employeeId: Option<string>)
  {
    employeeId.Some? && employeeId.value != ""
  }

  function ConstraintFor(tool: Tool, ctx: Context): (r: Option<Constraint>)
    ensures r.Some? <==> tool.scopeParam.Some?
    ensures r.Some? ==> r.value.scopeParam == tool.scopeParam.value && r.value.dataScope == tool.dataScope
  {
    if tool.scopeParam.None? then None
    else
      var own := if HasIdentity(ctx.employeeId) then [ctx.employeeId.value] else [];
      match tool.dataScope
      case Self => Some(Constraint(Self, tool.scopeParam.value, Some(own)))
      case Team =>
        var team := if ctx.teamMembers.Some? then ctx.teamMembers.value else [];
        Some(Constraint(Team, tool.scopeParam.value, Some(team + own)))
      case scope => Some(Constraint(scope, tool.scopeParam.value, None))
  }

  function Missing(required: seq<string>, held: seq<string>): (r: seq<string>)
    ensures forall p :: p in r <==> p in required && p !in held
  {
    if required == [] then []
    else
      var rest := Missing(required[..|required| - 1], held);
      var p := required[|required| - 1];
      if p in held then rest else rest + [p]
  }

  // The first check one candidate fails, in the order the loop makes them.
  function Check(tool: Tool, ctx: Context, reading: Reading): (r: Option<Reason>)
  {
    var missing := Missing(tool.requiredPermissions, ctx.permissions);
    if missing != [] then Some(MissingPermissions(missing))
    else if tool.kind.Mutation? && !ctx.allowMutations then Some(MutationsNotAllowed)
    else if reading.toolKilled then Some(ToolKilled)
    else if reading.agentKilled then Some(AgentKilled)
    else
      var c := ConstraintFor(tool, ctx);
      if c.Some? && c.value.allowedIds == Some([]) then Some(NoScopeIdentity) else None
  }

  function Extend(d: Decision, tool: Tool, ctx: Context, reading: Reading): Decision
  {
    match Check(tool, ctx, reading)
    case Some(reason) => d.(denials := d.denials + [Denial(tool.name, reason)])
    case None =>
      var c := ConstraintFor(tool, ctx);
      Decision(d.allowed + [tool.name], d.denials,
               if c.Some? then d.constraints[tool.name := c.value] else d.constraints)
  }

  function Decide(candidates: seq<Tool>, ctx: Context, readings: seq<Reading>): Decision
    requires |readings| == |candidates|
  {
    if candidates == [] then EMPTY
    else
      var n := |candidates| - 1;
      Extend(Decide(candidates[..n], ctx, readings[..n]), candidates[n], ctx, readings[n])
  }

  // The profile's tools that this deployment loaded, in profile order.
  function Candidates(profile: seq<string>, manifests: Manifests): (r: seq<Tool>)
    ensures forall t :: t in r <==> exists n :: n in profile && n in manifests && manifests[n] == t
  {
    if profile == [] then []
    else
      var rest := Candidates(profile[..|profile| - 1], manifests);
      var n := profile[|profile| - 1];
      if n in manifests then rest + [manifests[n]] else rest
  }

  // ---- The decision, independently of the loop ------------------------------

  predicate Permitted(tool: Tool, ctx: Context)
  {
    forall p <- tool.requiredPermissions :: p in ctx.permissions
  }

  predicate MutationAllowed(tool: Tool, ctx: Context)
  {
    tool.kind.Readonly? || ctx.allowMutations
  }

  // Somebody the tool could be used on.
  predicate HasScope(tool: Tool, ctx: Context)
  {
    tool.scopeParam.Some? ==>
      match tool.dataScope
      case Self => HasIdentity(ctx.employeeId)
      case Team => HasIdentity(ctx.employeeId) || (ctx.teamMembers.Some? && ctx.teamMembers.value != [])
      case _ => true
  }

  predicate Entitled(tool: Tool, ctx: Context, reading: Reading)
  {
    && Permitted(tool, ctx) && MutationAllowed(tool, ctx)
    && !reading.toolKilled && !reading.agentKilled && HasScope(tool, ctx)
  }

  ghost predicate EntitledAt(candidates: seq<Tool>, ctx: Context, readings: seq<Reading>, name: string, k: int)
    requires |readings| == |candidates|
  {
    0 <= k < |candidates| && candidates[k].name == name && Entitled(candidates[k], ctx, readings[k])
  }

  // `keep[i]` is where item i of `part` stands in `whole`.
  ghost predicate InOrder<T(!new)>(part: seq<T>, whole: seq<T>, keep: seq<int>)
  {
    && |keep| == |part|
    && (forall i | 0 <= i < |keep| :: 0 <= keep[i] < |whole| && part[i] == whole[keep[i]])
    && (forall i, j | 0 <= i < j < |keep| :: keep[i] < keep[j])
  }

  function Names(tools: seq<Tool>): (r: seq<string>)
    ensures |r| == |tools| && forall k | 0 <= k < |r| :: r[k] == tools[k].name
  {
    seq(|tools|, k requires 0 <= k < |tools| => tools[k].name)
  }

  function Denied(denials: seq<Denial>): (r: seq<string>)
    ensures |r| == |denials| && forall k | 0 <= k < |r| :: r[k] == denials[k].tool
  {
    seq(|denials|, k requires 0 <= k < |denials| => denials[k].tool)
  }

  lemma CheckMeansEntitled(tool: Tool, ctx: Context, reading: Reading)
    ensures Check(tool, ctx, reading).None? <==> Entitled(tool, ctx, reading)
  {
    var missing := Missing(tool.requiredPermissions, ctx.permissions);
    if missing != [] {
      assert missing[0] in missing;
    } else {
      assert Permitted(tool, ctx) by {
        forall p | p in tool.requiredPermissions ensures p in ctx.permissions { assert p !in missing; }
      }
      ScopeIsNonEmpty(tool, ctx);
    }
  }

  lemma ScopeIsNonEmpty(tool: Tool, ctx: Context)
    ensures HasScope(tool, ctx) <==> !(ConstraintFor(tool, ctx).Some? && ConstraintFor(tool, ctx).value.allowedIds == Some([]))
  {
    if tool.scopeParam.Some? && tool.dataScope.Team? {
      var own := if HasIdentity(ctx.employeeId) then [ctx.employeeId.value] else [];
      var team := if ctx.teamMembers.Some? then ctx.teamMembers.value else [];
      assert |team + own| == |team| + |own|;
    }
  }

  // ---- Main results ---------------------------------------------------------

  // Every candidate, in profile order, goes to exactly one side: these positions are allowed, the others denied.
  lemma {:induction false} EachCandidateOnce(candidates: seq<Tool>, ctx: Context, readings: seq<Reading>)
      returns (yes: seq<int>, no: seq<int>)
    requires |readings| == |candidates|
    ensures var d := Decide(candidates, ctx, readings);
            InOrder(d.allowed, Names(candidates), yes) && InOrder(Denied(d.denials), Names(candidates), no)
    ensures forall k | 0 <= k < |candidates| :: (k in yes <==> k !in no) && (k in yes <==> Entitled(candidates[k], ctx, readings[k]))
  {
    hide Entitled, Check, ConstraintFor;
    if candidates == [] {
      return [], [];
    }
    var n := |candidates| - 1;
    yes, no := EachCandidateOnce(candidates[..n], ctx, readings[..n]);
    CheckMeansEntitled(candidates[n], ctx, readings[n]);
    var d, d' := Decide(candidates[..n], ctx, readings[..n]), Decide(candidates, ctx, readings);
    var names := Names(candidates);
    assert names == Names(candidates[..n]) + [candidates[n].name];
    if Entitled(candidates[n], ctx, readings[n]) {
      Grows(d.allowed, Names(candidates[..n]), yes, candidates[n].name);
      Stretches(Denied(d.denials), Names(candidates[..n]), no, candidates[n].name);
      yes := yes + [n];
    } else {
      Grows(Denied(d.denials), Names(candidates[..n]), no, candidates[n].name);
      Stretches(d.allowed, Names(candidates[..n]), yes, candidates[n].name);
      assert Denied(d'.denials) == Denied(d.denials) + [candidates[n].name];
      no := no + [n];
    }
  }

  lemma Grows<T(!new)>(part: seq<T>, whole: seq<T>, keep: seq<int>, x: T)
    requires InOrder(part, whole, keep)
    ensures InOrder(part + [x], whole + [x], keep + [|whole|])
  {
  }

  lemma Stretches<T(!new)>(part: seq<T>, whole: seq<T>, keep: seq<int>, x: T)
    requires InOrder(part, whole, keep)
    ensures InOrder(part, whole + [x], keep)
  {
  }

  // A tool is allowed exactly when one of its places in the profile passes all five checks and has a scope identity.
  lemma AllowedIffEntitled(candidates: seq<Tool>, ctx: Context, readings: seq<Reading>, name: string)
    requires |readings| == |candidates|
    ensures name in Decide(candidates, ctx, readings).allowed <==>
            exists k :: EntitledAt(candidates, ctx, readings, name, k)
  {
    var yes, no := EachCandidateOnce(candidates, ctx, readings);
    var allowed := Decide(candidates, ctx, readings).allowed;
    if name in allowed {
      var i :| 0 <= i < |allowed| && allowed[i] == name;
      assert yes[i] in yes;
      assert EntitledAt(candidates, ctx, readings, name, yes[i]);
    }
    if k :| EntitledAt(candidates, ctx, readings, name, k) {
      var i :| 0 <= i < |yes| && yes[i] == k;
      assert allowed[i] == name;
    }
  }

  // The one reason that applies: what failed, everything asked before it having passed.
  ghost predicate Explains(reason: Reason, tool: Tool, ctx: Context, reading: Reading)
  {
    match reason
    case MissingPermissions(missing) =>
      missing != [] && forall p :: p in missing <==> p in tool.requiredPermissions && p !in ctx.permissions
    case MutationsNotAllowed => Permitted(tool, ctx) && !MutationAllowed(tool, ctx)
    case ToolKilled => Permitted(tool, ctx) && MutationAllowed(tool, ctx) && reading.toolKilled
    case AgentKilled => Permitted(tool, ctx) && MutationAllowed(tool, ctx) && !reading.toolKilled && reading.agentKilled
    case NoScopeIdentity =>
      && Permitted(tool, ctx) && MutationAllowed(tool, ctx) && !reading.toolKilled && !reading.agentKilled
      && !HasScope(tool, ctx)
  }

  lemma CheckExplains(tool: Tool, ctx: Context, reading: Reading)
    ensures Check(tool, ctx, reading).Some? ==> Explains(Check(tool, ctx, reading).value, tool, ctx, reading)
  {
    var missing := Missing(tool.requiredPermissions, ctx.permissions);
    if missing == [] {
      assert Permitted(tool, ctx) by {
        forall p | p in tool.requiredPermissions ensures p in ctx.permissions { assert p !in missing; }
      }
      ScopeIsNonEmpty(tool, ctx);
    }
  }

  ghost predicate ExplainedAt(candidates: seq<Tool>, ctx: Context, readings: seq<Reading>, d: Denial, k: int)
    requires |readings| == |candidates|
  {
    0 <= k < |candidates| && candidates[k].name == d.tool && Explains(d.reason, candidates[k], ctx, readings[k])
  }

  // Every denial names a candidate and the first check that candidate failed.
  lemma {:induction false} DenialsAreExplained(candidates: seq<Tool>, ctx: Context, readings: seq<Reading>)
    requires |readings| == |candidates|
    ensures forall d <- Decide(candidates, ctx, readings).denials :: exists k :: ExplainedAt(candidates, ctx, readings, d, k)
  {
    hide Check, Explains, ConstraintFor;
    if candidates != [] {
      var n := |candidates| - 1;
      var before := Decide(candidates[..n], ctx, readings[..n]);
      DenialsAreExplained(candidates[..n], ctx, readings[..n]);
      CheckExplains(candidates[n], ctx, readings[n]);
      forall d | d in Decide(candidates, ctx, readings).denials
        ensures exists k :: ExplainedAt(candidates, ctx, readings, d, k)
      {
        if d in before.denials {
          var k :| ExplainedAt(candidates[..n], ctx, readings[..n], d, k);
          assert ExplainedAt(candidates, ctx, readings, d, k);
        } else {
          assert ExplainedAt(candidates, ctx, readings, d, n);
        }
      }
    }
  }

  // More permissions, mutations allowed, or fewer switches thrown never lose a tool.
  predicate NoLess(ctx: Context, ctx': Context)
  {
    && (forall p <- ctx.permissions :: p in ctx'.permissions)
    && (ctx.allowMutations ==> ctx'.allowMutations)
    && ctx'.employeeId == ctx.employeeId && ctx'.teamMembers == ctx.teamMembers
  }

  predicate NoMoreKilled(readings: seq<Reading>, readings': seq<Reading>)
  {
    && |readings'| == |readings|
    && forall k | 0 <= k < |readings| ::
      (readings'[k].toolKilled ==> readings[k].toolKilled) && (readings'[k].agentKilled ==> readings[k].agentKilled)
  }

  lemma Monotone(candidates: seq<Tool>, ctx: Context, ctx': Context, readings: seq<Reading>, readings': seq<Reading>)
    requires |readings| == |candidates| && NoLess(ctx, ctx') && NoMoreKilled(readings, readings')
    ensures forall n <- Decide(candidates, ctx, readings).allowed :: n in Decide(candidates, ctx', readings').allowed
  {
    forall n | n in Decide(candidates, ctx, readings).allowed
      ensures n in Decide(candidates, ctx', readings').allowed
    {
      AllowedIffEntitled(candidates, ctx, readings, n);
      AllowedIffEntitled(candidates, ctx', readings', n);
      var k :| EntitledAt(candidates, ctx, readings, n, k);
      assert EntitledAt(candidates, ctx', readings', n, k);
    }
  }

  // A scoped tool that is allowed, and no other, has a constraint: it passes exactly the calls that name the caller's own
  // record, or for a team tool the team's, and somebody is left in scope.
  lemma ConstraintsAreResolved(
      manifests: Manifests, candidates: seq<Tool>, ctx: Context, readings: seq<Reading>, name: string)
    requires Keyed(manifests) && |readings| == |candidates|
    requires forall t <- candidates :: t.name in manifests && manifests[t.name] == t
    requires name in Decide(candidates, ctx, readings).allowed
    ensures name in manifests
    ensures var d, tool := Decide(candidates, ctx, readings), manifests[name];
            && (name in d.constraints <==> tool.scopeParam.Some?)
            && (name in d.constraints ==>
                  && ConstraintFor(tool, ctx) == Some(d.constraints[name]) && d.constraints[name].allowedIds != Some([])
                  && d.constraints[name].scopeParam == tool.scopeParam.value
                  && forall args ::
                       InScope(args, tool.scopeParam.value, d.constraints[name].allowedIds) <==> NamesOwn(tool, ctx, args))
  {
    ConstraintsAreKept(manifests, candidates, ctx, readings, name);
    var tool := manifests[name];
    if tool.scopeParam.Some? {
      forall args ensures InScope(args, tool.scopeParam.value, ConstraintFor(tool, ctx).value.allowedIds) <==> NamesOwn(tool, ctx, args) {
        ScopeIsOwn(tool, ctx, args);
      }
    }
  }

  lemma {:induction false} ConstraintsAreKept(
      manifests: Manifests, candidates: seq<Tool>, ctx: Context, readings: seq<Reading>, name: string)
    requires Keyed(manifests) && |readings| == |candidates|
    requires forall t <- candidates :: t.name in manifests && manifests[t.name] == t
    requires name in Decide(candidates, ctx, readings).allowed
    ensures name in manifests
    ensures var d, tool := Decide(candidates, ctx, readings), manifests[name];
            && (name in d.constraints <==> tool.scopeParam.Some?)
            && (name in d.constraints ==>
                  ConstraintFor(tool, ctx) == Some(d.constraints[name]) && d.constraints[name].allowedIds != Some([]))
  {
    var n := |candidates| - 1;
    var tool := candidates[n];
    var before := Decide(candidates[..n], ctx, readings[..n]);
    forall t | t in candidates[..n] ensures t.name in manifests && manifests[t.name] == t {
      assert t in candidates;
    }
    if name in before.allowed {
      ConstraintsAreKept(manifests, candidates[..n], ctx, readings[..n], name);
    } else {
      NoConstraintBefore(candidates[..n], ctx, readings[..n], name);
    }
    assert tool in candidates;
  }

  lemma {:induction false} NoConstraintBefore(candidates: seq<Tool>, ctx: Context, readings: seq<Reading>, name: string)
    requires |readings| == |candidates| && name !in Decide(candidates, ctx, readings).allowed
    ensures name !in Decide(candidates, ctx, readings).constraints
  {
    if candidates != [] {
      var n := |candidates| - 1;
      NoConstraintBefore(candidates[..n], ctx, readings[..n], name);
    }
  }

  // ---- The second check, at execution ---------------------------------------

  // An argument as the caller sees it: a string, something else Python calls true, or something it calls false.
  datatype Arg = Text(s: string) | Truthy(id: nat) | Falsy(id: nat)

  type Args = map<string, Arg>

  predicate Given(args: Args, param: string)
  {
    param in args && !args[param].Falsy? && args[param] != Text("")
  }

  function ApplyScopeDefault(args: Args, param: string, employeeId: Option<string>): (r: Args)
    ensures forall p :: p != param ==> (p in r <==> p in args) && (p in args ==> r[p] == args[p])
  {
    if HasIdentity(employeeId) && !Given(args, param) then args[param := Text(employeeId.value)] else args
  }

  predicate InScope(args: Args, param: string, allowedIds: Option<seq<string>>)
  {
    allowedIds.Some? ==> param in args && args[param].Text? && args[param].s in allowedIds.value
  }

  // Whose record a call names, spelled out: for a self-scoped tool the caller's own id; for a team-scoped one that or a
  // member of the team the token lists; for the others anybody's.
  predicate NamesOwn(tool: Tool, ctx: Context, args: Args)
    requires tool.scopeParam.Some?
  {
    var p := tool.scopeParam.value;
    match tool.dataScope
    case Self => ctx.employeeId.Some? && ctx.employeeId.value != "" && p in args && args[p] == Text(ctx.employeeId.value)
    case Team =>
      && p in args && args[p].Text?
      && ((ctx.employeeId == Some(args[p].s) && args[p].s != "")
          || (ctx.teamMembers.Some? && args[p].s in ctx.teamMembers.value))
    case Department => true
    case Tenant => true
  }

  // The ids a scope resolves to let through exactly those.
  lemma ScopeIsOwn(tool: Tool, ctx: Context, args: Args)
    requires tool.scopeParam.Some?
    ensures InScope(args, tool.scopeParam.value, ConstraintFor(tool, ctx).value.allowedIds) <==> NamesOwn(tool, ctx, args)
  {
    var p := tool.scopeParam.value;
    if tool.dataScope.Team? && p in args && args[p].Text? {
      var own := if HasIdentity(ctx.employeeId) then [ctx.employeeId.value] else [];
      var team := if ctx.teamMembers.Some? then ctx.teamMembers.value else [];
      assert args[p].s in team + own <==> args[p].s in team || args[p].s in own;
    }
  }

  // A caller who leaves the parameter out passes the check of an allowed tool
  // exactly when the tool is unrestricted or the caller has an id to fall back on.
  lemma SelfDefaultPasses(tool: Tool, ctx: Context, reading: Reading, args: Args)
    requires Entitled(tool, ctx, reading) && tool.scopeParam.Some? && tool.scopeParam.value !in args
    ensures var c := ConstraintFor(tool, ctx).value;
            InScope(ApplyScopeDefault(args, c.scopeParam, ctx.employeeId), c.scopeParam, c.allowedIds)
            <==> c.allowedIds.None? || HasIdentity(ctx.employeeId)
  {
    var c := ConstraintFor(tool, ctx).value;
    if HasIdentity(ctx.employeeId) && c.allowedIds.Some? {
      var ids := c.allowedIds.value;
      assert ids[|ids| - 1] == ctx.employeeId.value;
    }
  }

  // A value the caller did give is never replaced: outside the scope it is refused.
  lemma ExplicitValueIsNotReplaced(args: Args, param: string, employeeId: Option<string>, ids: seq<string>)
    requires Given(args, param) && !(args[param].Text? && args[param].s in ids)
    ensures !InScope(ApplyScopeDefault(args, param, employeeId), param, Some(ids))
  {
  }

  // ---- The killswitch -------------------------------------------------------

  const CACHE_TTL_SECONDS: real := 10.0

  // What Redis answered, by key and by the instant the question was put.
  type History = (string, real) -> bool

  function ToolSwitch(tool: string): string { "killswitch:tool:" + tool }

  function AgentSwitch(agent: string): string { "killswitch:agent:" + agent }

  // Redis said `off` at some instant within the last `ttl` seconds.
  ghost predicate SaidRecently(history: History, key: string, now: real, ttl: real, off: bool)
  {
    exists t: real :: SaidAt(history, key, t, off) && (t == now || now - ttl < t <= now)
  }

  ghost predicate SaidAt(history: History, key: string, t: real, off: bool)
  {
    history(key, t) == off
  }

  class KillswitchChecker {
    const ttl: real
    var cache: map<string, (bool, real)>

    // Every entry is what Redis answered at the instant it is stamped with.
    ghost predicate Honest(history: History, now: real)
      reads this
    {
      forall key <- cache :: cache[key].0 == history(key, cache[key].1) && cache[key].1 <= now
    }

    constructor (ttl: real := CACHE_TTL_SECONDS)
      ensures this.ttl == ttl && cache == map[]
    {
      this.ttl := ttl;
      cache := map[];
    }

    method IsDisabled(key: string, now: real, redis: History) returns (disabled: bool)
      requires Honest(redis, now)
      modifies this
      ensures Honest(redis, now)
      ensures SaidRecently(redis, key, now, ttl, disabled)
      ensures key in old(cache) && now - old(cache[key].1) < ttl ==> cache == old(cache) && disabled == old(cache[key].0)
      ensures !(key in old(cache) && now - old(cache[key].1) < ttl) ==>
                cache == old(cache)[key := (disabled, now)] && disabled == redis(key, now)
    {
      if key in cache && now - cache[key].1 < ttl {
        disabled := cache[key].0;
        assert SaidAt(redis, key, cache[key].1, disabled);
        return;
      }
      disabled := redis(key, now);
      assert SaidAt(redis, key, now, disabled);
      cache := cache[key := (disabled, now)];
    }
  }

  class Resolver {
    const manifests: Manifests
    const profiles: map<string, seq<string>>
    const killswitch: KillswitchChecker

    constructor (manifests: Manifests, profiles: map<string, seq<string>>, killswitch: KillswitchChecker)
      ensures this.manifests == manifests && this.profiles == profiles && this.killswitch == killswitch
    {
      this.manifests, this.profiles, this.killswitch := manifests, profiles, killswitch;
    }

    // Every switch that let an allowed tool through, or stopped a denied one, was read within the TTL.
    ghost predicate Observed(candidates: seq<Tool>, ctx: Context, readings: seq<Reading>, redis: History, clock: nat -> real)
    {
      && |readings| == |candidates|
      && forall k | 0 <= k < |candidates| :: ObservedOne(candidates[k], ctx, readings[k], redis, clock(k))
    }

    ghost predicate ObservedOne(tool: Tool, ctx: Context, reading: Reading, redis: History, now: real)
    {
      Permitted(tool, ctx) && MutationAllowed(tool, ctx) ==>
        && SaidRecently(redis, "killswitch:tool:" + tool.name, now, killswitch.ttl, reading.toolKilled)
        && (!reading.toolKilled ==>
              SaidRecently(redis, "killswitch:agent:" + ctx.agentId, now, killswitch.ttl, reading.agentKilled))
    }

    // The loop's chain of early exits for one candidate; a switch is asked only when the checks before it passed.
    method Refusal(tool: Tool, ctx: Context, now: real, redis: History) returns (reason: Option<Reason>, ghost reading: Reading)
      requires killswitch.Honest(redis, now)
      modifies killswitch
      ensures killswitch.Honest(redis, now)
      ensures ObservedOne(tool, ctx, reading, redis, now) && reason == Check(tool, ctx, reading)
    {
      reading := Reading(false, false);
      var missing := Missing(tool.requiredPermissions, ctx.permissions);
      if missing != [] {
        assert missing[0] in missing;
        return Some(MissingPermissions(missing)), reading;
      }
      if tool.kind.Mutation? && !ctx.allowMutations {
        return Some(MutationsNotAllowed), reading;
      }
      var toolKilled := killswitch.IsDisabled(ToolSwitch(tool.name), now, redis);
      reading := Reading(toolKilled, false);
      if toolKilled {
        return Some(ToolKilled), reading;
      }
      var agentKilled := killswitch.IsDisabled(AgentSwitch(ctx.agentId), now, redis);
      reading := Reading(false, agentKilled);
      if agentKilled {
        return Some(AgentKilled), reading;
      }
      var c := ConstraintFor(tool, ctx);
      reason := if c.Some? && c.value.allowedIds == Some([]) then Some(NoScopeIdentity) else None;
    }

    // `clock(i)` is when candidate i is checked.
    method Resolve(ctx: Context, clock: nat -> real, redis: History) returns (d: Decision, ghost readings: seq<Reading>)
      requires (forall i: nat, j: nat | i <= j :: clock(i) <= clock(j)) && killswitch.Honest(redis, clock(0))
      modifies killswitch
      ensures ctx.agentId !in profiles ==> d == EMPTY
      ensures ctx.agentId in profiles ==>
                var candidates := Candidates(profiles[ctx.agentId], manifests);
                Observed(candidates, ctx, readings, redis, clock) && d == Decide(candidates, ctx, readings)
    {
      hide Check, SaidRecently, ObservedOne;
      d := EMPTY;
      readings := [];
      if ctx.agentId !in profiles {
        return;
      }
      var candidates := Candidates(profiles[ctx.agentId], manifests);
      var i := 0;
      while i < |candidates|
        invariant 0 <= i <= |candidates| && |readings| == i && killswitch.Honest(redis, clock(i))
        invariant Observed(candidates[..i], ctx, readings, redis, clock)
        invariant d == Decide(candidates[..i], ctx, readings)
      {
        var tool := candidates[i];
        ghost var reading;
        var reason;
        reason, reading := Refusal(tool, ctx, clock(i), redis);
        if reason.Some? {
          d := d.(denials := d.denials + [Denial(tool.name, reason.value)]);
        } else {
          var c := ConstraintFor(tool, ctx);
          d := d.(allowed := d.allowed + [tool.name]);
          if c.Some? { d := d.(constraints := d.constraints[tool.name := c.value]); }
        }
        assert candidates[..i + 1] == candidates[..i] + [tool];
        DecideStep(candidates[..i], ctx, readings, tool, reading);
        readings := readings + [reading];
        assert clock(i) <= clock(i + 1);
        i := i + 1;
      }
      assert candidates[..i] == candidates;
    }
  }

  lemma DecideStep(candidates: seq<Tool>, ctx: Context, readings: seq<Reading>, tool: Tool, reading: Reading)
    requires |readings| == |candidates|
    ensures Decide(candidates + [tool], ctx, readings + [reading]) == Extend(Decide(candidates, ctx, readings), tool, ctx, reading)
  {
    assert (candidates + [tool])[..|candidates|] == candidates;
    assert (readings + [reading])[..|readings|] == readings;
  }
}
