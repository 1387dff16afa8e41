/** What every run of `Jobs.Next` keeps: bounded work, one claimant, and what a crash costs. */
module JobProofs {
  import opened Wrappers
  import opened Sums
  import opened Jobs

  // ---- Calls and steps are bounded by the redeliveries ----------------------

  // Harness calls a message on its `attempts`-th retry may still cause.
  function CallsLeft(attempts: nat): int
  {
    MAX_ATTEMPTS + 1 - attempts
  }

  function MessageCalls(): nat -> int
  {
    (a: nat) => CallsLeft(a)
  }

  function WorkerCalls(w: Worker): int
  {
    match w
    case Received(a) => CallsLeft(a)
    case Claimed(a) => CallsLeft(a)
    case Failing(a, _) => CallsLeft(a) - 1
    case FailedWritten(a, _) => CallsLeft(a) - 1
    case _ => 0
  }

  function WorkersCalls(): Worker -> int
  {
    (w: Worker) => WorkerCalls(w)
  }

  // Steps a message may still cause; one retry hop costs seven.
  function MessageSteps(extra: int): nat -> int
  {
    (a: nat) => 7 * CallsLeft(a) + extra
  }

  function WorkerSteps(w: Worker): int
  {
    match w
    case Received(a) => 7 * CallsLeft(a) - 1
    case Claimed(a) => 7 * CallsLeft(a) - 2
    case Failing(a, _) => 7 * CallsLeft(a) - 3
    case FailedWritten(a, _) => 7 * CallsLeft(a) - 4
    case Succeeding(_) => 4
    case SucceededWritten(_) => 3
    case DeadWritten(_) => 2
    case Raised(_) => 2
    case Settled(_) => 1
    case Gone => 0
  }

  function WorkersSteps(): Worker -> int
  {
    (w: Worker) => WorkerSteps(w)
  }

  function CallPotential(s: State): int
  {
    Sum(s.ready, MessageCalls()) + Sum(s.shared.held, MessageCalls()) + Sum(s.workers, WorkersCalls())
  }

  function StepPotential(s: State): int
  {
    Sum(s.ready, MessageSteps(0)) + Sum(s.shared.held, MessageSteps(1)) + Sum(s.workers, WorkersSteps())
  }

  predicate Laddered(s: State)
  {
    && (forall k | 0 <= k < |s.ready| :: s.ready[k] <= MAX_ATTEMPTS)
    && (forall k | 0 <= k < |s.shared.held| :: s.shared.held[k] <= MAX_ATTEMPTS)
    && (forall i | 0 <= i < |s.workers| :: s.workers[i].Gone? || s.workers[i].attempts <= MAX_ATTEMPTS)
  }

  lemma NextLaddered(s: State, e: Event, s': State)
    requires Laddered(s) && Next(s, e) == Some(s')
    ensures Laddered(s')
  {
  }

  // No event but a redelivery raises calls made plus calls still possible, and that by at most four.
  lemma NextSpends(s: State, e: Event, s': State)
    requires Laddered(s) && Next(s, e) == Some(s')
    ensures s'.shared.calls + CallPotential(s') <=
              s.shared.calls + CallPotential(s) + (MAX_ATTEMPTS + 1) * (s'.redeliveries - s.redeliveries)
    ensures 1 + StepPotential(s') <= StepPotential(s) + 29 * (s'.redeliveries - s.redeliveries)
  {
    hide CallPotential, StepPotential, Laddered, WorkerStep, Without;
    match e {
      case Deliver(m) => DeliverSpends(s, m, s');
      case Step(w, outcome) => StepSpends(s, w, outcome, s');
      case Throw(w) => ThrowSpends(s, w, s');
      case Crash(w) => CrashSpends(s, w, s');
      case Redeliver(w) => RedeliverSpends(s, w, s');
      case Expire(h) => ExpireSpends(s, h, s');
    }
  }

  lemma DeliverSpends(s: State, m: nat, s': State)
    requires Next(s, Deliver(m)) == Some(s')
    ensures CallPotential(s') <= CallPotential(s) && 1 + StepPotential(s') <= StepPotential(s)
  {
    SumRemove(s.ready, m, MessageCalls());
    SumRemove(s.ready, m, MessageSteps(0));
    SumAppend(s.workers, Received(s.ready[m]), WorkersCalls());
    SumAppend(s.workers, Received(s.ready[m]), WorkersSteps());
  }

  lemma ExpireSpends(s: State, h: nat, s': State)
    requires Next(s, Expire(h)) == Some(s')
    ensures CallPotential(s') <= CallPotential(s) && 1 + StepPotential(s') <= StepPotential(s)
  {
    SumRemove(s.shared.held, h, MessageCalls());
    SumRemove(s.shared.held, h, MessageSteps(1));
    SumAppend(s.ready, s.shared.held[h], MessageCalls());
    SumAppend(s.ready, s.shared.held[h], MessageSteps(0));
  }

  lemma ThrowSpends(s: State, w: nat, s': State)
    requires Laddered(s) && Next(s, Throw(w)) == Some(s')
    ensures CallPotential(s') <= CallPotential(s) && 1 + StepPotential(s') <= StepPotential(s)
  {
    SumUpdate(s.workers, w, s'.workers[w], WorkersCalls());
    SumUpdate(s.workers, w, s'.workers[w], WorkersSteps());
  }

  lemma CrashSpends(s: State, w: nat, s': State)
    requires Laddered(s) && Next(s, Crash(w)) == Some(s')
    ensures s'.shared.calls + CallPotential(s') <= s.shared.calls + CallPotential(s) + 4
    ensures 1 + StepPotential(s') <= StepPotential(s) + 28
  {
    SumUpdate(s.workers, w, Gone, WorkersCalls());
    SumUpdate(s.workers, w, Gone, WorkersSteps());
    SumAppend(s.ready, s.workers[w].attempts, MessageCalls());
    SumAppend(s.ready, s.workers[w].attempts, MessageSteps(0));
  }

  lemma RedeliverSpends(s: State, w: nat, s': State)
    requires Laddered(s) && Next(s, Redeliver(w)) == Some(s')
    ensures s'.shared.calls + CallPotential(s') <= s.shared.calls + CallPotential(s) + 4
    ensures 1 + StepPotential(s') <= StepPotential(s) + 29
  {
    SumAppend(s.ready, s.workers[w].attempts, MessageCalls());
    SumAppend(s.ready, s.workers[w].attempts, MessageSteps(0));
  }

  // What one step of a worker may publish is paid for by the worker.
  lemma WorkerSpends(s: Shared, w: Worker, outcome: Outcome)
    requires !w.Gone? && w.attempts <= MAX_ATTEMPTS
    ensures var (s', w') := WorkerStep(s, w, outcome);
            if w.FailedWritten? && s'.held != s.held then
              && s'.held == s.held + [w.attempts + 1]
              && s'.calls + WorkerCalls(w') + MessageCalls()(w.attempts + 1) <= s.calls + WorkerCalls(w)
              && 1 + WorkerSteps(w') + MessageSteps(1)(w.attempts + 1) <= WorkerSteps(w)
            else
              && s'.held == s.held
              && s'.calls + WorkerCalls(w') <= s.calls + WorkerCalls(w)
              && 1 + WorkerSteps(w') <= WorkerSteps(w)
  {
  }

  lemma StepSpends(s: State, w: nat, outcome: Outcome, s': State)
    requires Laddered(s) && Next(s, Step(w, outcome)) == Some(s')
    ensures s'.shared.calls + CallPotential(s') <= s.shared.calls + CallPotential(s)
    ensures 1 + StepPotential(s') <= StepPotential(s)
  {
    hide WorkerStep, WorkerCalls, WorkerSteps, MessageCalls, MessageSteps;
    WorkerSpends(s.shared, s.workers[w], outcome);
    SumUpdate(s.workers, w, s'.workers[w], WorkersCalls());
    SumUpdate(s.workers, w, s'.workers[w], WorkersSteps());
    if s'.shared.held != s.shared.held {
      var next: nat := s.workers[w].attempts + 1;
      SumAppend(s.shared.held, next, MessageCalls());
      SumAppend(s.shared.held, next, MessageSteps(1));
    }
  }

  lemma {:induction false} RunSpends(events: seq<Event>, s: State)
    requires Run(INITIAL, events) == Some(s)
    ensures Laddered(s)
    ensures s.shared.calls + CallPotential(s) <= (MAX_ATTEMPTS + 1) * (1 + s.redeliveries)
    ensures |events| + StepPotential(s) <= 28 + 29 * s.redeliveries
  {
    if events == [] {
      assert Sum<nat>([0], MessageCalls()) == 4 && Sum<nat>([0], MessageSteps(0)) == 28;
    } else {
      var before := Run(INITIAL, events[..|events| - 1]).value;
      RunSpends(events[..|events| - 1], before);
      NextLaddered(before, events[|events| - 1], s);
      NextSpends(before, events[|events| - 1], s);
    }
  }

  lemma PotentialsNonNegative(s: State)
    requires Laddered(s)
    ensures CallPotential(s) >= 0 && StepPotential(s) >= 0
  {
    SumNonNegative(s.ready, MessageCalls());
    SumNonNegative(s.shared.held, MessageCalls());
    SumNonNegative(s.workers, WorkersCalls());
    SumNonNegative(s.ready, MessageSteps(0));
    SumNonNegative(s.shared.held, MessageSteps(1));
    SumNonNegative(s.workers, WorkersSteps());
  }

  // Four calls for the job and four more for each redelivery, in every interleaving.
  lemma CallsAreBounded(events: seq<Event>, s: State)
    requires Run(INITIAL, events) == Some(s)
    ensures s.shared.calls <= (MAX_ATTEMPTS + 1) * (1 + s.redeliveries)
  {
    RunSpends(events, s);
    PotentialsNonNegative(s);
  }

  // ---- Messages in flight ----------------------------------------------------------------

  function OneIf(a: nat): nat -> int
  {
    (m: nat) => if m == a then 1 else 0
  }

  function HoldsOne(a: nat): Worker -> int
  {
    (w: Worker) => if !w.Gone? && w.attempts == a then 1 else 0
  }

  // How many messages on their a-th retry are ready, held or with a worker.
  function InFlight(s: State, a: nat): int
  {
    Sum(s.ready, OneIf(a)) + Sum(s.shared.held, OneIf(a)) + Sum(s.workers, HoldsOne(a))
  }

  // No message is lost or changes its count of attempts: an event adds one only where a message is redelivered beside its
  // worker or a retry is scheduled, one attempt further on, and takes one away only where it is acknowledged. A dead letter
  // is published, with the attempts of its message, by exactly a worker that wrote dead-lettered or met an exception.
  lemma MessagesAreConserved(s: State, e: Event, s': State, a: nat)
    requires Next(s, e) == Some(s')
    ensures InFlight(s', a) - InFlight(s, a) ==
            match e
            case Redeliver(w) => (if s.workers[w].attempts == a then 1 else 0)
            case Step(w, _) =>
              var x := s.workers[w];
              if x.Settled? && x.attempts == a then -1
              else if x.FailedWritten? && x.retriable && x.attempts < MAX_ATTEMPTS && x.attempts + 1 == a then 1
              else 0
            case _ => 0
    ensures s'.shared.dlq == s.shared.dlq +
              if e.Step? && (s.workers[e.w].DeadWritten? || s.workers[e.w].Raised?) then [s.workers[e.w].attempts] else []
  {
    hide Sum;
    match e {
      case Deliver(m) =>
        SumRemove(s.ready, m, OneIf(a));
        SumAppend(s.workers, Received(s.ready[m]), HoldsOne(a));
      case Expire(h) =>
        SumRemove(s.shared.held, h, OneIf(a));
        SumAppend(s.ready, s.shared.held[h], OneIf(a));
      case Redeliver(w) => SumAppend(s.ready, s.workers[w].attempts, OneIf(a));
      case Crash(w) =>
        SumAppend(s.ready, s.workers[w].attempts, OneIf(a));
        SumUpdate(s.workers, w, Gone, HoldsOne(a));
      case Throw(w) => SumUpdate(s.workers, w, s'.workers[w], HoldsOne(a));
      case Step(w, _) =>
        SumUpdate(s.workers, w, s'.workers[w], HoldsOne(a));
        SumAppend<nat>(s.shared.held, s.workers[w].attempts + 1, OneIf(a));
    }
  }

  // Unless the worker that wrote it dies first, a job that reads dead-lettered has a message in the dead-letter queue, or a
  // worker about to put it there.
  lemma {:induction false} DeadLettersArrive(events: seq<Event>, s: State)
    requires Run(INITIAL, events) == Some(s) && forall e <- events :: !e.Crash?
    ensures s.shared.status.DeadLettered? ==>
              s.shared.dlq != [] || exists i :: 0 <= i < |s.workers| && s.workers[i].DeadWritten?
  {
    if events != [] {
      var (init, e) := (events[..|events| - 1], events[|events| - 1]);
      var before := Run(INITIAL, init).value;
      forall x | x in init ensures x in events {}
      assert e in events;
      DeadLettersArrive(init, before);
      StillDying(before, e, s);
    }
  }

  lemma StillDying(s: State, e: Event, s': State)
    requires Next(s, e) == Some(s') && !e.Crash?
    requires s.shared.status.DeadLettered? ==>
               s.shared.dlq != [] || exists i :: 0 <= i < |s.workers| && s.workers[i].DeadWritten?
    ensures s'.shared.status.DeadLettered? ==>
              s'.shared.dlq != [] || exists i :: 0 <= i < |s'.workers| && s'.workers[i].DeadWritten?
  {
    if s.shared.status.DeadLettered? && s.shared.dlq == [] {
      var i :| 0 <= i < |s.workers| && s.workers[i].DeadWritten?;
      assert s'.shared.dlq != [] || s'.workers[i] == s.workers[i];
    } else if e.Step? && s.workers[e.w].FailedWritten? {
      assert s'.shared.status == s.shared.status || s'.workers[e.w].DeadWritten?;
    }
  }

  predicate Drained(s: State)
  {
    s.ready == [] && s.shared.held == [] && forall i | 0 <= i < |s.workers| :: s.workers[i].Gone?
  }

  // A run with `r` redeliveries has at most 28 + 29r events, and stops only when nothing is in flight.
  lemma EveryJobDrains(events: seq<Event>, s: State)
    requires Run(INITIAL, events) == Some(s)
    ensures |events| <= 28 + 29 * s.redeliveries
    ensures Drained(s) || exists e :: Next(s, e).Some?
  {
    RunSpends(events, s);
    PotentialsNonNegative(s);
    if !Drained(s) {
      var e := SomethingCanHappen(s);
    }
  }

  lemma SomethingCanHappen(s: State) returns (e: Event)
    requires !Drained(s)
    ensures Next(s, e).Some?
  {
    if s.ready != [] {
      e := Deliver(0);
    } else if s.shared.held != [] {
      e := Expire(0);
    } else {
      var i :| 0 <= i < |s.workers| && !s.workers[i].Gone?;
      e := Step(i, Returned);
    }
  }

  // ---- Mutual exclusion -----------------------------------------------------

  ghost predicate Exclusive(s: State)
  {
    && (forall i, j | 0 <= i < j < |s.workers| :: !(s.workers[i].Critical() && s.workers[j].Critical()))
    && (forall i | 0 <= i < |s.workers| && s.workers[i].Critical() :: !Claimable(s.shared.status))
  }

  lemma {:induction false} OneClaimant(events: seq<Event>, s: State)
    requires Run(INITIAL, events) == Some(s)
    ensures Exclusive(s)
  {
    if events != [] {
      var before := Run(INITIAL, events[..|events| - 1]).value;
      OneClaimant(events[..|events| - 1], before);
      NextExclusive(before, events[|events| - 1], s);
    }
  }

  lemma NextExclusive(s: State, e: Event, s': State)
    requires Exclusive(s) && Next(s, e) == Some(s')
    ensures Exclusive(s')
  {
  }

  // ---- When a job is stranded -------------------------------------------------

  // Claimed by nobody who is alive, and claimable by nobody else.
  predicate Wedged(s: State)
  {
    !Claimable(s.shared.status) && forall i | 0 <= i < |s.workers| :: !s.workers[i].Critical()
  }

  // The worker between claim and first write dies, or an exception takes it out.
  predicate LosesClaimant(s: State, e: Event)
  {
    match e
    case Crash(w) => w < |s.workers| && s.workers[w].Critical()
    case Throw(w) => w < |s.workers| && s.workers[w].Critical()
    case Step(w, outcome) => w < |s.workers| && s.workers[w].Claimed? && outcome.Crashed?
    case _ => false
  }

  // However the claimant is lost before its first write, the job is left so.
  lemma LosingTheClaimantWedges(events: seq<Event>, s: State, e: Event, s': State)
    requires Run(INITIAL, events) == Some(s) && LosesClaimant(s, e) && Next(s, e) == Some(s')
    ensures Wedged(s')
  {
    OneClaimant(events, s);
  }

  // Somebody will still try to claim the job, or to say it failed.
  predicate Carries(w: Worker)
  {
    w.Received? || w.FailedWritten?
  }

  predicate Carried(s: State)
  {
    s.ready != [] || s.shared.held != [] || exists i | 0 <= i < |s.workers| :: Carries(s.workers[i])
  }

  predicate HasClaimant(s: State)
  {
    exists i | 0 <= i < |s.workers| :: s.workers[i].Critical()
  }

  // Running with nobody running it.
  predicate Stuck(s: State)
  {
    s.shared.status.Running? && !HasClaimant(s)
  }

  // Stuck, or claimable with nothing left to claim it.
  predicate Stranded(s: State)
  {
    Stuck(s) || (Claimable(s.shared.status) && !Carried(s))
  }

  // An exception takes out the only carrier there is.
  predicate LosesCarrier(s: State, e: Event)
  {
    && e.Throw? && e.w < |s.workers| && Carries(s.workers[e.w])
    && s.ready == [] && s.shared.held == []
    && forall i | 0 <= i < |s.workers| && i != e.w :: !Carries(s.workers[i])
  }

  // A job gets stuck in exactly one way, and one that is not stranded becomes so in exactly two.
  lemma StrandedExactly(events: seq<Event>, s: State, e: Event, s': State)
    requires Run(INITIAL, events) == Some(s) && !Stuck(s) && Next(s, e) == Some(s')
    ensures Stuck(s') <==> s.shared.status.Running? && LosesClaimant(s, e)
    ensures !Stranded(s) ==>
              (Stranded(s') <==>
               (s.shared.status.Running? && LosesClaimant(s, e)) || (Claimable(s.shared.status) && LosesCarrier(s, e)))
  {
    hide WorkerStep, Run;
    OneClaimant(events, s);
    match e {
      case Deliver(m) =>
        assert Received(s.ready[m]) == s'.workers[|s.workers|];
        assert forall i | 0 <= i < |s.workers| :: s'.workers[i] == s.workers[i];
      case Expire(_) =>
      case Redeliver(_) =>
      case Crash(w) => OthersStay(s, s', w);
      case Throw(w) => OthersStay(s, s', w);
      case Step(w, outcome) =>
        OthersStay(s, s', w);
        StepMoves(s.shared, s.workers[w], outcome);
    }
  }

  lemma OthersStay(s: State, s': State, w: nat)
    requires w < |s.workers| == |s'.workers| && s'.workers == s.workers[w := s'.workers[w]]
    ensures HasClaimant(s') <==> s'.workers[w].Critical() || exists i | 0 <= i < |s.workers| && i != w :: s.workers[i].Critical()
    ensures HasClaimant(s) <==> s.workers[w].Critical() || exists i | 0 <= i < |s.workers| && i != w :: s.workers[i].Critical()
    ensures Carried(s') <==> s'.ready != [] || s'.shared.held != [] || Carries(s'.workers[w])
                             || exists i | 0 <= i < |s.workers| && i != w :: Carries(s.workers[i])
    ensures Carried(s) <==> s.ready != [] || s.shared.held != [] || Carries(s.workers[w])
                            || exists i | 0 <= i < |s.workers| && i != w :: Carries(s.workers[i])
  {
    assert forall i | 0 <= i < |s.workers| && i != w :: s'.workers[i] == s.workers[i];
  }

  // What one step can do to the status, to a claim and to what carries the job.
  lemma StepMoves(s: Shared, w: Worker, outcome: Outcome)
    requires !w.Gone?
    ensures var (s', w') := WorkerStep(s, w, outcome);
            && |s'.held| >= |s.held|
            && (w.Received? ==>
                  if Claimable(s.status) then s'.status.Running? && w'.Critical() else s' == s && !w'.Critical() && !Carries(w'))
            && (w.Claimed? ==> s'.status == s.status && (w'.Critical() <==> !outcome.Crashed?) && !Carries(w'))
            && (w.Failing? ==> s'.status.Failed? && Carries(w'))
            && (w.FailedWritten? ==> (s'.status == s.status && s'.held != []) || s'.status.DeadLettered?)
            && (w.Succeeding? ==> s'.status.Succeeded?)
            && (!w.Received? && !w.Critical() ==> !w'.Critical())
            && (!w.Received? && !w.Critical() && !w.FailedWritten? ==> s'.status == s.status && !Carries(w'))
  {
  }

  // From then on no delivery ever runs it again, and it never succeeds.
  lemma {:induction false} WedgedForever(s: State, events: seq<Event>, t: State)
    requires Wedged(s) && Run(s, events) == Some(t)
    ensures Wedged(t) && t.shared.calls == s.shared.calls && t.shared.claims == s.shared.claims
    ensures t.shared.status == s.shared.status || t.shared.status.DeadLettered?
  {
    if events != [] {
      var before := Run(s, events[..|events| - 1]).value;
      WedgedForever(s, events[..|events| - 1], before);
    }
  }

  // Nothing dies, and nothing raises past the errors the worker handles.
  predicate Smooth(e: Event)
  {
    !e.Crash? && !e.Throw? && (e.Step? ==> !e.outcome.Crashed?)
  }

  lemma {:induction false} SmoothRunsAreNotStranded(events: seq<Event>, s: State)
    requires Run(INITIAL, events) == Some(s) && forall e <- events :: Smooth(e)
    ensures !Stranded(s)
  {
    if events != [] {
      var (init, e) := (events[..|events| - 1], events[|events| - 1]);
      var before := Run(INITIAL, init).value;
      assert e in events;
      forall x | x in init ensures x in events {}
      SmoothRunsAreNotStranded(init, before);
      StrandedExactly(init, before, e, s);
    }
  }

  // A drained job has finished unless it is stranded; so one whose run was smooth has finished, redeliveries or not.
  lemma DrainedJobsFinish(events: seq<Event>, s: State)
    requires Run(INITIAL, events) == Some(s) && Drained(s)
    ensures s.shared.status.Succeeded? || s.shared.status.DeadLettered? <==> !Stranded(s)
    ensures (forall e <- events :: Smooth(e)) ==> s.shared.status.Succeeded? || s.shared.status.DeadLettered?
  {
    if forall e <- events :: Smooth(e) {
      SmoothRunsAreNotStranded(events, s);
    }
  }

  // ---- Runs without a redelivery --------------------------------------------

  // Holding a message whose fate is not settled yet.
  predicate Live(w: Worker)
  {
    !w.Gone? && !w.Settled?
  }

  // One message at most, as many retries behind it as delays published, the ladder climbed in order.
  ghost predicate Quiet(s: State)
  {
    var k := |s.shared.delays|;
    && k <= MAX_ATTEMPTS && s.shared.delays == RETRY_BACKOFF_SECONDS[..k]
    && |s.ready| + |s.shared.held| <= 1
    && (s.ready != [] ==> s.ready[0] == k)
    && (s.shared.held != [] ==> s.shared.held[0] == k)
    && (forall i | 0 <= i < |s.workers| && Live(s.workers[i]) ::
          && s.ready == [] && s.shared.held == [] && s.workers[i].attempts == k
          && (s.shared.status.Succeeded? ==> s.workers[i].SucceededWritten? || s.workers[i].Raised?))
    && (forall i, j | 0 <= i < j < |s.workers| :: !(Live(s.workers[i]) && Live(s.workers[j])))
    && (s.shared.status.Succeeded? ==> s.ready == [] && s.shared.held == [])
  }

  lemma NextQuiet(s: State, e: Event, s': State)
    requires Quiet(s) && Next(s, e) == Some(s') && !e.Crash? && !e.Redeliver?
    ensures Quiet(s')
  {
  }

  lemma {:induction false} RunQuiet(events: seq<Event>, s: State)
    requires Run(INITIAL, events) == Some(s) && s.redeliveries == 0
    ensures Quiet(s)
  {
    if events != [] {
      var before := Run(INITIAL, events[..|events| - 1]).value;
      RunQuiet(events[..|events| - 1], before);
      NextQuiet(before, events[|events| - 1], s);
    }
  }

  // Without a redelivery the delays published are exactly the first rungs of 10, 60, 300.
  lemma DelaysClimbTheLadder(events: seq<Event>, s: State)
    requires Run(INITIAL, events) == Some(s) && s.redeliveries == 0
    ensures s.shared.calls <= 4 && s.shared.delays <= [10, 60, 300]
  {
    RunQuiet(events, s);
    CallsAreBounded(events, s);
  }

  // ---- When `succeeded` is final ------------------------------------------------

  // A worker that has written `failed` and found no retry left: its next write is unguarded.
  predicate AboutToBury(w: Worker)
  {
    w.FailedWritten? && (!w.retriable || w.attempts >= MAX_ATTEMPTS)
  }

  lemma {:induction false} SucceededHasNoClaimant(events: seq<Event>, s: State)
    requires Run(INITIAL, events) == Some(s) && s.shared.status.Succeeded?
    ensures !HasClaimant(s)
  {
    var init := events[..|events| - 1];
    var before := Run(INITIAL, init).value;
    OneClaimant(init, before);
    if before.shared.status.Succeeded? {
      SucceededHasNoClaimant(init, before);
    }
  }

  // `succeeded` is overwritten by exactly one kind of event: the step of such a worker.
  lemma SucceededOverwrittenExactly(events: seq<Event>, s: State, e: Event, s': State)
    requires Run(INITIAL, events) == Some(s) && s.shared.status.Succeeded? && Next(s, e) == Some(s')
    ensures !s'.shared.status.Succeeded? <==> e.Step? && AboutToBury(s.workers[e.w])
  {
    SucceededHasNoClaimant(events, s);
  }

  lemma RedeliveriesGrow(s: State, e: Event, s': State)
    requires Next(s, e) == Some(s')
    ensures s'.redeliveries >= s.redeliveries && (e.Step? ==> e.w < |s.workers|)
  {
  }

  // Without a redelivery there is no such worker, and `succeeded` is final.
  lemma SucceededIsFinalWithoutRedelivery(events: seq<Event>, s: State, e: Event, s': State)
    requires Run(INITIAL, events) == Some(s) && s.shared.status.Succeeded?
    requires Next(s, e) == Some(s') && s'.redeliveries == 0
    ensures s'.shared.status.Succeeded?
  {
    hide Next, Run, WorkerStep;
    RedeliveriesGrow(s, e, s');
    RunQuiet(events, s);
    SucceededOverwrittenExactly(events, s, e, s');
  }

  ghost predicate AlwaysSucceeded(s: State)
  {
    forall more: seq<Event> :: SucceededAfter(s, more)
  }

  predicate SucceededAfter(s: State, more: seq<Event>)
  {
    Run(s, more).Some? ==> Run(s, more).value.shared.status.Succeeded?
  }

  // Nobody claims it, nobody is about to bury it.
  predicate Unburied(s: State)
  {
    && s.shared.status.Succeeded?
    && forall i | 0 <= i < |s.workers| :: !s.workers[i].Critical() && !AboutToBury(s.workers[i])
  }

  lemma {:induction false} UnburiedStays(s: State, more: seq<Event>, t: State)
    requires Unburied(s) && Run(s, more) == Some(t)
    ensures Unburied(t)
  {
    if more != [] {
      UnburiedStays(s, more[..|more| - 1], Run(s, more[..|more| - 1]).value);
    }
  }

  // Once reached, `succeeded` lasts through every continuation exactly when no worker is about to bury the job.
  lemma SucceededIsFinalExactly(events: seq<Event>, s: State)
    requires Run(INITIAL, events) == Some(s) && s.shared.status.Succeeded?
    ensures AlwaysSucceeded(s) <==> forall i | 0 <= i < |s.workers| :: !AboutToBury(s.workers[i])
  {
    SucceededHasNoClaimant(events, s);
    if Unburied(s) {
      forall more: seq<Event> ensures SucceededAfter(s, more) {
        if Run(s, more).Some? { UnburiedStays(s, more, Run(s, more).value); }
      }
    } else {
      var i :| 0 <= i < |s.workers| && AboutToBury(s.workers[i]);
      var bury := [Step(i, Returned)];
      assert bury[..0] == [] && Run(s, bury) == Next(s, bury[0]);
      assert !SucceededAfter(s, bury);
    }
  }

  // The first attempt has scheduled its retry but not acked.
  lemma RetryScheduled() returns (events: seq<Event>, s: State)
    ensures Run(INITIAL, events) == Some(s)
    ensures s == State(Shared(Failed, 1, [1], [], 1, [10]), [], [Settled(0)], 0)
  {
    events, s := [], INITIAL;
    events, s := Then(events, s, Deliver(0));
    events, s := Then(events, s, Step(0, Returned));
    events, s := Then(events, s, Step(0, Refused(true)));
    events, s := Then(events, s, Step(0, Returned));
    events, s := Then(events, s, Step(0, Returned));
  }

  // Its worker dies, so two workers get the job, which reads failed.
  lemma BothAttemptsHeld() returns (events: seq<Event>, s: State)
    ensures Run(INITIAL, events) == Some(s) && s.workers == [Gone, Received(0), Received(1)]
    ensures s.shared.status.Failed? && s.redeliveries == 1
  {
    events, s := RetryScheduled();
    events, s := Then(events, s, Crash(0));
    events, s := Then(events, s, Expire(0));
    events, s := Then(events, s, Deliver(0));
    events, s := Then(events, s, Deliver(0));
  }

  // With one it is not: the worker of an older attempt still holds its unguarded second write.
  lemma SucceededOverwritten() returns (events: seq<Event>, s: State, e: Event, s': State)
    ensures Run(INITIAL, events) == Some(s) && s.shared.status.Succeeded? && s.redeliveries == 1
    ensures Next(s, e) == Some(s') && s'.shared.status.DeadLettered?
  {
    events, s := BothAttemptsHeld();
    events, s := Then(events, s, Step(1, Returned));
    events, s := Then(events, s, Step(1, Refused(false)));
    events, s := Then(events, s, Step(1, Returned));
    events, s := Then(events, s, Step(2, Returned));
    events, s := Then(events, s, Step(2, Returned));
    events, s := Then(events, s, Step(2, Returned));
    e := Step(1, Returned);
    s' := Next(s, e).value;
  }

  // Either way of being stranded happens: an exception before the claim leaves the job queued for good,
  lemma StrandedQueued() returns (events: seq<Event>, s: State)
    ensures Run(INITIAL, events) == Some(s) && Drained(s) && s.shared.status.Queued?
  {
    events, s := [], INITIAL;
    events, s := Then(events, s, Deliver(0));
    events, s := Then(events, s, Throw(0));
    events, s := Then(events, s, Step(0, Returned));
    events, s := Then(events, s, Step(0, Returned));
  }

  // and one between the two writes of a failure leaves it failed; nothing is in flight any more.
  lemma StrandedFailed() returns (events: seq<Event>, s: State)
    ensures Run(INITIAL, events) == Some(s) && Drained(s) && s.shared.status.Failed?
  {
    events, s := [], INITIAL;
    events, s := Then(events, s, Deliver(0));
    events, s := Then(events, s, Step(0, Returned));
    events, s := Then(events, s, Step(0, Refused(true)));
    events, s := Then(events, s, Step(0, Returned));
    events, s := Then(events, s, Throw(0));
    events, s := Then(events, s, Step(0, Returned));
    events, s := Then(events, s, Step(0, Returned));
  }

  lemma Then(events: seq<Event>, s: State, e: Event) returns (events': seq<Event>, s': State)
    requires Run(INITIAL, events) == Some(s) && Next(s, e).Some?
    ensures Next(s, e) == Some(s') && Run(INITIAL, events') == Some(s')
  {
    events', s' := events + [e], Next(s, e).value;
    assert (events + [e])[..|events|] == events;
  }
}
