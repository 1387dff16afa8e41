/**
 One asynchronous job on an at-least-once broker: the guarded claim, the
 status writes each in a transaction of its own, the retry ladder and the
 dead-letter queue. `WorkerStep` is one worker advanced to its next await;
 `Next` interleaves any number of workers with exceptions, crashes and
 redelivery, to a worker that is gone or beside one that still runs.
 */
module Jobs {
  import opened Collections
  import opened Wrappers

  const MAX_ATTEMPTS: nat := 3
  const RETRY_BACKOFF_SECONDS: seq<int> := [10, 60, 300]

  datatype Status = Queued | Running | Succeeded | Failed | DeadLettered

  // What the harness call does: it returns, raises HarnessError, or raises anything else.
  datatype Outcome = Returned | Refused(retriable: bool) | Crashed

  // A worker holding one unacknowledged message, by the await it has reached.
  datatype Worker =
    | Received(attempts: nat)
    | Claimed(attempts: nat)
    | Failing(attempts: nat, retriable: bool)       // error in hand, nothing written yet
    | FailedWritten(attempts: nat, retriable: bool) // first transaction done
    | DeadWritten(attempts: nat)                    // second transaction done
    | Succeeding(attempts: nat)                     // result in hand, nothing written yet
    | SucceededWritten(attempts: nat)
    | Raised(attempts: nat)                         // unexpected exception, on the way to the DLQ
    | Settled(attempts: nat)                        // only the ack is left
    | Gone                                          // acked, or the connection dropped
  {
    // Between its claim and its first status write.
    predicate Critical() { Claimed? || Failing? || Succeeding? }
  }

  // Everything the workers share: the job row, what they published, the calls they made.
  datatype Shared = Shared(status: Status, claims: nat, held: seq<nat>, dlq: seq<nat>, calls: nat, delays: seq<int>)

  predicate Claimable(status: Status) { status.Queued? || status.Failed? }

  function DelayFor(attempts: nat): int
  {
    RETRY_BACKOFF_SECONDS[Min(attempts, MAX_ATTEMPTS - 1)]
  }

  // process_job and the handler around it, one statement or publish at a time.
  function WorkerStep(s: Shared, w: Worker, outcome: Outcome): (r: (Shared, Worker))
    requires !w.Gone?
    ensures StepsLeft(r.1) < StepsLeft(w)
  {
    match w
    case Received(a) =>
      if Claimable(s.status) then (s.(status := Running, claims := s.claims + 1), Claimed(a))
      else (s, Settled(a))
    case Claimed(a) =>
      (s.(calls := s.calls + 1),
       match outcome
       case Returned => Succeeding(a)
       case Refused(retriable) => Failing(a, retriable)
       case Crashed => Raised(a))
    case Failing(a, retriable) => (s.(status := Failed), FailedWritten(a, retriable))
    case FailedWritten(a, retriable) =>
      if !retriable || a >= MAX_ATTEMPTS then (s.(status := DeadLettered), DeadWritten(a))
      else (s.(held := s.held + [a + 1], delays := s.delays + [DelayFor(a)]), Settled(a))
    case DeadWritten(a) => (s.(dlq := s.dlq + [a]), Settled(a))
    case Succeeding(a) => (s.(status := Succeeded), SucceededWritten(a))
    case SucceededWritten(a) => (s, Settled(a))
    case Raised(a) => (s.(dlq := s.dlq + [a]), Settled(a))
    case Settled(a) => (s, Gone)
  }

  function StepsLeft(w: Worker): nat
  {
    match w
    case Received(_) => 7
    case Claimed(_) => 6
    case Failing(_, _) => 5
    case Succeeding(_) => 5
    case FailedWritten(_, _) => 4
    case SucceededWritten(_) => 3
    case DeadWritten(_) => 3
    case Raised(_) => 2
    case Settled(_) => 1
    case Gone => 0
  }

  datatype State = State(shared: Shared, ready: seq<nat>, workers: seq<Worker>, redeliveries: nat)

  const INITIAL: State := State(Shared(Queued, 0, [], [], 0, []), [0], [], 0)

  datatype Event =
    | Deliver(m: nat)                   // a ready message reaches some worker
    | Step(w: nat, outcome: Outcome)
    | Throw(w: nat)                     // a database write or the webhook raises
    | Crash(w: nat)                     // the worker dies unacked: its message comes back as it was
    | Redeliver(w: nat)                 // its message comes back while the worker, unacked, goes on
    | Expire(h: nat)                    // a held message's TTL returns it to its queue

  predicate Throws(w: Worker)
  {
    w.Received? || w.Failing? || w.FailedWritten? || w.Succeeding? || w.SucceededWritten?
  }

  function Without(s: seq<nat>, i: nat): seq<nat>
    requires i < |s|
  {
    s[..i] + s[i + 1..]
  }

  function Next(s: State, e: Event): Option<State>
  {
    match e
    case Deliver(m) =>
      if m >= |s.ready| then None
      else Some(s.(ready := Without(s.ready, m), workers := s.workers + [Received(s.ready[m])]))
    case Step(w, outcome) =>
      if w >= |s.workers| || s.workers[w].Gone? then None
      else
        var (shared, worker) := WorkerStep(s.shared, s.workers[w], outcome);
        Some(s.(shared := shared, workers := s.workers[w := worker]))
    case Throw(w) =>
      if w >= |s.workers| || !Throws(s.workers[w]) then None
      else Some(s.(workers := s.workers[w := Raised(s.workers[w].attempts)]))
    case Crash(w) =>
      if w >= |s.workers| || s.workers[w].Gone? then None
      else Some(s.(workers := s.workers[w := Gone], ready := s.ready + [s.workers[w].attempts],
                   redeliveries := s.redeliveries + 1))
    case Redeliver(w) =>
      if w >= |s.workers| || s.workers[w].Gone? then None
      else Some(s.(ready := s.ready + [s.workers[w].attempts], redeliveries := s.redeliveries + 1))
    case Expire(h) =>
      if h >= |s.shared.held| then None
      else Some(s.(shared := s.shared.(held := Without(s.shared.held, h)), ready := s.ready + [s.shared.held[h]]))
  }

  function Run(s: State, events: seq<Event>): Option<State>
  {
    if events == [] then Some(s)
    else
      var before := Run(s, events[..|events| - 1]);
      if before.None? then None else Next(before.value, events[|events| - 1])
  }

  // One worker that nothing interrupts and nothing raises in, up to its ack.
  function RunAlone(s: Shared, w: Worker, outcome: Outcome): (r: Shared)
    decreases StepsLeft(w)
  {
    if w.Gone? then s else var (s', w') := WorkerStep(s, w, outcome); RunAlone(s', w', outcome)
  }

  // `RaisedOutcome`: an exception process_job does not handle.
  datatype JobOutcome = SucceededOutcome | RetryOutcome | DeadLetteredOutcome | AlreadyClaimedOutcome | RaisedOutcome

  class JobRow {
    var status: Status
    var claims: nat

    constructor ()
      ensures status == Queued && claims == 0
    {
      status, claims := Queued, 0;
    }

    method TryClaim() returns (won: bool)
      modifies this
      ensures won == Claimable(old(status))
      ensures status == (if won then Running else old(status)) && claims == old(claims) + if won then 1 else 0
    {
      won := status.Queued? || status.Failed?;
      if won { status, claims := Running, claims + 1; }
    }

    method Mark(to: Status)
      modifies this`status
      ensures status == to
    {
      status := to;
    }
  }

  class Consumer {
    const row: JobRow
    var held: seq<nat>
    var dlq: seq<nat>
    var calls: nat
    var delays: seq<int>

    ghost function View(): Shared
      reads this, row
    {
      Shared(row.status, row.claims, held, dlq, calls, delays)
    }

    constructor (row: JobRow)
      ensures this.row == row && View() == Shared(row.status, row.claims, [], [], 0, [])
    {
      this.row := row;
      held, dlq, calls, delays := [], [], 0, [];
    }

    method ScheduleRetry(attempts: nat)
      modifies this`held, this`delays
      ensures held == old(held) + [attempts + 1] && delays == old(delays) + [DelayFor(attempts)]
    {
      var slot := if attempts < MAX_ATTEMPTS - 1 then attempts else MAX_ATTEMPTS - 1;
      delays := delays + [RETRY_BACKOFF_SECONDS[slot]];
      held := held + [attempts + 1];
    }

    // process_job, for everything the harness call can do.
    method ProcessJob(attempts: nat, outcome: Outcome) returns (r: JobOutcome)
      modifies this`calls, row
      ensures r.AlreadyClaimedOutcome? <==> !Claimable(old(row.status))
      ensures r.AlreadyClaimedOutcome? ==> View() == old(View())
      ensures !r.AlreadyClaimedOutcome? ==>
                && row.claims == old(row.claims) + 1 && calls == old(calls) + 1
                && match outcome
                   case Returned => r.SucceededOutcome? && row.status.Succeeded?
                   case Refused(retriable) =>
                     (if retriable && attempts < MAX_ATTEMPTS then r.RetryOutcome? && row.status.Failed?
                      else r.DeadLetteredOutcome? && row.status.DeadLettered?)
                   case Crashed => r.RaisedOutcome? && row.status.Running?
    {
      var claimed := row.TryClaim();
      if !claimed { return AlreadyClaimedOutcome; }
      calls := calls + 1;
      if outcome.Crashed? { return RaisedOutcome; }
      if outcome.Refused? {
        row.Mark(Failed);
        if !outcome.retriable || attempts >= MAX_ATTEMPTS {
          row.Mark(DeadLettered);
          return DeadLetteredOutcome;
        }
        return RetryOutcome;
      }
      row.Mark(Succeeded);
      r := SucceededOutcome;
    }

    // _handle: publish what the outcome asks for, an unexpected exception to the DLQ, then ack.
    method Handle(attempts: nat, outcome: Outcome)
      modifies this, row
      ensures View() == RunAlone(old(View()), Received(attempts), outcome)
    {
      var r := ProcessJob(attempts, outcome);
      if r.RetryOutcome? {
        ScheduleRetry(attempts);
      } else if r.DeadLetteredOutcome? || r.RaisedOutcome? {
        dlq := dlq + [attempts];
      }
      RunAloneUnfolds(old(View()), attempts, outcome);
    }
  }

  lemma RunAloneUnfolds(s: Shared, a: nat, outcome: Outcome)
    ensures RunAlone(s, Received(a), outcome) ==
              if !Claimable(s.status) then s
              else
                var t := s.(claims := s.claims + 1, calls := s.calls + 1);
                match outcome
                case Returned => t.(status := Succeeded)
                case Refused(retriable) =>
                  (if retriable && a < MAX_ATTEMPTS then
                     t.(status := Failed, held := s.held + [a + 1], delays := s.delays + [DelayFor(a)])
                   else t.(status := DeadLettered, dlq := s.dlq + [a]))
                case Crashed => t.(status := Running, dlq := s.dlq + [a])
  {
    assert RunAlone(s, Settled(a), outcome) == s;
    if Claimable(s.status) {
      var t := s.(status := Running, claims := s.claims + 1, calls := s.calls + 1);
      match outcome {
        case Returned =>
          var u := t.(status := Succeeded);
          assert RunAlone(s, Received(a), outcome) == RunAlone(t, Succeeding(a), outcome);
          assert RunAlone(t, Succeeding(a), outcome) == RunAlone(u, SucceededWritten(a), outcome);
          assert RunAlone(u, SucceededWritten(a), outcome) == RunAlone(u, Settled(a), outcome);
          assert RunAlone(u, Settled(a), outcome) == u;
        case Refused(retriable) =>
          var f := t.(status := Failed);
          assert RunAlone(s, Received(a), outcome) == RunAlone(t, Failing(a, retriable), outcome);
          assert RunAlone(t, Failing(a, retriable), outcome) == RunAlone(f, FailedWritten(a, retriable), outcome);
          if retriable && a < MAX_ATTEMPTS {
            var u := f.(held := s.held + [a + 1], delays := s.delays + [DelayFor(a)]);
            assert RunAlone(f, FailedWritten(a, retriable), outcome) == RunAlone(u, Settled(a), outcome);
            assert RunAlone(u, Settled(a), outcome) == u;
          } else {
            var u := f.(status := DeadLettered);
            var v := u.(dlq := s.dlq + [a]);
            assert RunAlone(f, FailedWritten(a, retriable), outcome) == RunAlone(u, DeadWritten(a), outcome);
            assert RunAlone(u, DeadWritten(a), outcome) == RunAlone(v, Settled(a), outcome);
            assert RunAlone(v, Settled(a), outcome) == v;
          }
        case Crashed =>
          var u := t.(dlq := s.dlq + [a]);
          assert RunAlone(s, Received(a), outcome) == RunAlone(t, Raised(a), outcome);
          assert RunAlone(t, Raised(a), outcome) == RunAlone(u, Settled(a), outcome);
          assert RunAlone(u, Settled(a), outcome) == u;
      }
    }
  }
}
