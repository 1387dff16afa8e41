/**
 The gateway's two mutating endpoints behind one table of idempotency keys.
 `RequestStep` is one request advanced to its next await; `Next` interleaves
 any number of requests, retries and crashed handlers.
 */
module Gateway {
  import opened Wrappers

  type Key = (string, string)   // tenant and Idempotency-Key

  datatype Endpoint = Invoke | SubmitJob

  // Only the shape of a stored body decides whether an endpoint can replay it.
  datatype Body = RunBody(id: nat) | JobBody(id: nat) | ErrorBody

  datatype Reply = Reply(status: nat, body: Body)

  datatype KeyRow = KeyRow(requestHash: string, reply: Option<Reply>)

  datatype Answer =
    | Fresh(reply: Reply)
    | Replayed(reply: Reply)
    | Unreadable            // a stored body this endpoint's response model rejects: 500
    | HashMismatch          // 409
    | InProgress            // 409

  datatype Stage =
    | Arrived
    | Begun                 // its INSERT won
    | Rejected              // over quota
    | Reserved
    | Ran(ok: bool)
    | Reconciled(ok: bool)
    | JobInserted
    | Published
    | Answered(answer: Answer)
    | Dead                  // the handler or its instance died here
  {
    predicate Working() { !Arrived? && !Answered? && !Dead? }
  }

  datatype Request = Request(endpoint: Endpoint, key: Key, requestHash: string, id: nat, stage: Stage)

  // What the outside decides for one request.
  datatype Choice = Choice(accepted: bool, runOk: bool, failureStatus: nat)

  // The table, and a history of what each key has caused.
  datatype Shared = Shared(
    rows: map<Key, KeyRow>,
    reservations: multiset<Key>, runs: multiset<Key>, jobs: multiset<Key>, messages: multiset<Key>)

  function Readable(endpoint: Endpoint, body: Body): bool
  {
    if endpoint.Invoke? then body.RunBody? else body.JobBody?
  }

  function BeginRow(rows: map<Key, KeyRow>, key: Key, requestHash: string): (map<Key, KeyRow>, bool)
  {
    if key in rows then (rows, false) else (rows[key := KeyRow(requestHash, None)], true)
  }

  function CompleteRow(rows: map<Key, KeyRow>, key: Key, reply: Reply): map<Key, KeyRow>
  {
    if key in rows then rows[key := rows[key].(reply := Some(reply))] else rows
  }

  // What a request that lost the INSERT is told.
  function LosersAnswer(row: KeyRow, endpoint: Endpoint, requestHash: string): Answer
  {
    if row.requestHash != requestHash then HashMismatch
    else if row.reply.None? then InProgress
    else if Readable(endpoint, row.reply.value.body) then Replayed(row.reply.value)
    else Unreadable
  }

  function Finish(s: Shared, r: Request, reply: Reply): (Shared, Request)
  {
    (s.(rows := CompleteRow(s.rows, r.key, reply)), r.(stage := Answered(Fresh(reply))))
  }

  function RequestStep(s: Shared, r: Request, c: Choice): (res: (Shared, Request))
    requires !r.stage.Answered? && !r.stage.Dead?
    ensures res.1 == r.(stage := res.1.stage) && StepsLeft(res.1.stage) < StepsLeft(r.stage)
  {
    match r.stage
    case Arrived =>
      var (rows, won) := BeginRow(s.rows, r.key, r.requestHash);
      if won then (s.(rows := rows), r.(stage := Begun))
      else (s, r.(stage := Answered(LosersAnswer(s.rows[r.key], r.endpoint, r.requestHash))))
    case Begun =>
      if c.accepted then (s.(reservations := s.reservations + multiset{r.key}), r.(stage := Reserved))
      else (s, r.(stage := Rejected))
    case Rejected => Finish(s, r, Reply(429, ErrorBody))
    case Reserved =>
      if r.endpoint.Invoke? then (s.(runs := s.runs + multiset{r.key}), r.(stage := Ran(c.runOk)))
      else (s.(jobs := s.jobs + multiset{r.key}), r.(stage := JobInserted))
    case Ran(ok) => (s, r.(stage := Reconciled(ok)))
    case Reconciled(ok) =>
      Finish(s, r, if ok then Reply(200, RunBody(r.id)) else Reply(c.failureStatus, ErrorBody))
    case JobInserted => (s.(messages := s.messages + multiset{r.key}), r.(stage := Published))
    case Published => Finish(s, r, Reply(202, JobBody(r.id)))
  }

  function StepsLeft(st: Stage): nat
  {
    match st
    case Arrived => 5
    case Begun => 4
    case Reserved => 3
    case Ran(_) => 2
    case JobInserted => 2
    case Reconciled(_) => 1
    case Published => 1
    case Rejected => 1
    case _ => 0
  }

  datatype World = World(shared: Shared, requests: seq<Request>)

  const EMPTY: World := World(Shared(map[], multiset{}, multiset{}, multiset{}, multiset{}), [])

  datatype Event =
    | Arrive(endpoint: Endpoint, key: Key, requestHash: string)
    | Step(i: nat, choice: Choice)
    | Die(i: nat)

  function Next(w: World, e: Event): Option<World>
  {
    match e
    case Arrive(endpoint, key, requestHash) =>
      Some(w.(requests := w.requests + [Request(endpoint, key, requestHash, |w.requests|, Arrived)]))
    case Step(i, choice) =>
      if i >= |w.requests| || w.requests[i].stage.Answered? || w.requests[i].stage.Dead?
         || choice.failureStatus !in {503, 504} then None
      else
        var (s, r) := RequestStep(w.shared, w.requests[i], choice);
        Some(World(s, w.requests[i := r]))
    case Die(i) =>
      if i >= |w.requests| || w.requests[i].stage.Answered? then None
      else Some(w.(requests := w.requests[i := w.requests[i].(stage := Dead)]))
  }

  function Run(w: World, events: seq<Event>): Option<World>
  {
    if events == [] then Some(w)
    else
      var before := Run(w, events[..|events| - 1]);
      if before.None? then None else Next(before.value, events[|events| - 1])
  }

  // ---- The invariant --------------------------------------------------------

  // What a key may have caused by the time its one working request is at `st`.
  predicate Progress(s: Shared, k: Key, st: Stage)
  {
    var (reserved, ran, queued, sent) := (s.reservations[k], s.runs[k], s.jobs[k], s.messages[k]);
    match st
    case Begun => reserved == 0 && ran == 0 && queued == 0 && sent == 0
    case Rejected => reserved == 0 && ran == 0 && queued == 0 && sent == 0
    case Reserved => reserved == 1 && ran == 0 && queued == 0 && sent == 0
    case Ran(_) => reserved == 1 && ran == 1 && queued == 0 && sent == 0
    case Reconciled(_) => reserved == 1 && ran == 1 && queued == 0 && sent == 0
    case JobInserted => reserved == 1 && ran == 0 && queued == 1 && sent == 0
    case Published => reserved == 1 && ran == 0 && queued == 1 && sent == 1
    case _ => true
  }

  predicate Modest(s: Shared, k: Key)
  {
    && s.messages[k] <= s.jobs[k] && s.runs[k] + s.jobs[k] <= s.reservations[k] <= 1
    && (k !in s.rows ==> s.reservations[k] == 0)
    && (k in s.rows && s.rows[k].reply.Some? && s.rows[k].reply.value.status == 202 ==> s.jobs[k] == 1 && s.messages[k] == 1)
    && (k in s.rows && s.rows[k].reply.Some? && s.rows[k].reply.value.status == 200 ==> s.runs[k] == 1)
  }

  ghost predicate Inv(w: World)
  {
    && (forall k: Key :: Modest(w.shared, k))
    && (forall i | 0 <= i < |w.requests| :: RequestInv(w.shared, w.requests[i]))
    && (forall i, j | 0 <= i < j < |w.requests| && w.requests[i].stage.Working() && w.requests[j].stage.Working() ::
          w.requests[i].key != w.requests[j].key)
  }

  ghost predicate RequestInv(s: Shared, r: Request)
  {
    && (r.stage.Working() ==>
          r.key in s.rows && s.rows[r.key] == KeyRow(r.requestHash, None) && Progress(s, r.key, r.stage))
    && (r.stage.Answered? && (r.stage.answer.Replayed? || r.stage.answer.Fresh?) ==>
          r.key in s.rows && s.rows[r.key] == KeyRow(r.requestHash, Some(r.stage.answer.reply)))
  }

  // A step of `r` changes nothing another key or a stored reply depends on.
  lemma StepKeeps(s: Shared, r: Request, c: Choice)
    requires !r.stage.Answered? && !r.stage.Dead? && c.failureStatus in {503, 504}
    requires RequestInv(s, r) && Modest(s, r.key)
    ensures var (s', r') := RequestStep(s, r, c);
            && RequestInv(s', r') && Modest(s', r.key)
            && (r'.stage.Working() && !r.stage.Working() ==> r.key !in s.rows)
            && (forall k: Key | k != r.key :: SameFor(s, s', k))
            && (r.key in s.rows && s.rows[r.key].reply.Some? ==> SameFor(s, s', r.key))
            && (r.key in s.rows && !r.stage.Working() ==> SameFor(s, s', r.key))
  {
  }

  predicate SameFor(s: Shared, s': Shared, k: Key)
  {
    && (k in s.rows <==> k in s'.rows) && (k in s.rows ==> s'.rows[k] == s.rows[k])
    && s'.reservations[k] == s.reservations[k] && s'.runs[k] == s.runs[k]
    && s'.jobs[k] == s.jobs[k] && s'.messages[k] == s.messages[k]
  }

  lemma StepKeepsInv(w: World, i: nat, c: Choice, w': World)
    requires Inv(w) && Next(w, Step(i, c)) == Some(w')
    ensures Inv(w')
  {
    hide RequestStep, Progress;
    var r, r' := w.requests[i], w'.requests[i];
    StepKeeps(w.shared, r, c);
    forall k: Key ensures Modest(w'.shared, k) {
      assert Modest(w.shared, k);
      assert k != r.key ==> SameFor(w.shared, w'.shared, k);
    }
    forall j | 0 <= j < |w'.requests| ensures RequestInv(w'.shared, w'.requests[j]) {
      assert RequestInv(w.shared, w.requests[j]);
      var other := w.requests[j];
      if j != i && (other.key != r.key || other.stage.Working() || other.stage.Answered?) {
        if other.stage.Working() || (other.stage.Answered? && (other.stage.answer.Replayed? || other.stage.answer.Fresh?)) {
          assert SameFor(w.shared, w'.shared, other.key);
          ProgressSame(w.shared, w'.shared, other);
        }
      }
    }
  }

  lemma ProgressSame(s: Shared, s': Shared, r: Request)
    requires SameFor(s, s', r.key) && RequestInv(s, r)
    ensures RequestInv(s', r)
  {
  }

  lemma {:induction false} RunKeepsInv(events: seq<Event>, w: World)
    requires Run(EMPTY, events) == Some(w)
    ensures Inv(w)
  {
    if events != [] {
      var e := events[|events| - 1];
      var before := Run(EMPTY, events[..|events| - 1]).value;
      RunKeepsInv(events[..|events| - 1], before);
      match e {
        case Arrive(_, _, _) =>
        case Step(i, c) => StepKeepsInv(before, i, c, w);
        case Die(_) =>
      }
    }
  }

  // ---- Main results ---------------------------------------------------------

  // One key causes at most one reservation, and at most one of a harness run and a job row with one message.
  lemma OneEffectPerKey(events: seq<Event>, w: World, k: Key)
    requires Run(EMPTY, events) == Some(w)
    ensures w.shared.reservations[k] <= 1
    ensures w.shared.runs[k] + w.shared.jobs[k] <= w.shared.reservations[k]
    ensures w.shared.messages[k] <= w.shared.jobs[k]
  {
    RunKeepsInv(events, w);
    assert Modest(w.shared, k);
  }

  // A stored 202 has its job row and its message; a stored 200 has its run.
  lemma StoredSuccessIsBacked(events: seq<Event>, w: World, k: Key)
    requires Run(EMPTY, events) == Some(w) && k in w.shared.rows && w.shared.rows[k].reply.Some?
    ensures w.shared.rows[k].reply.value.status == 202 ==> w.shared.jobs[k] == 1 && w.shared.messages[k] == 1
    ensures w.shared.rows[k].reply.value.status == 200 ==> w.shared.runs[k] == 1
  {
    RunKeepsInv(events, w);
    assert Modest(w.shared, k);
  }

  // Once stored, a reply is never overwritten and its key never causes anything again, whatever it says.
  lemma StoredReplyIsFinal(events: seq<Event>, w: World, k: Key, e: Event, w': World)
    requires Run(EMPTY, events) == Some(w) && Next(w, e) == Some(w')
    requires k in w.shared.rows && w.shared.rows[k].reply.Some?
    ensures SameFor(w.shared, w'.shared, k)
  {
    RunKeepsInv(events, w);
    if e.Step? {
      assert RequestInv(w.shared, w.requests[e.i]) && Modest(w.shared, w.requests[e.i].key);
      StepKeeps(w.shared, w.requests[e.i], e.choice);
    }
  }

  // A replay answers, for the same request hash, what is stored under the key; only 200 and 202 are ever replayed.
  lemma ReplayMatchesStore(events: seq<Event>, w: World, i: nat)
    requires Run(EMPTY, events) == Some(w)
    requires i < |w.requests| && w.requests[i].stage.Answered? && w.requests[i].stage.answer.Replayed?
    ensures var r := w.requests[i];
            r.key in w.shared.rows && w.shared.rows[r.key] == KeyRow(r.requestHash, Some(r.stage.answer.reply))
  {
    RunKeepsInv(events, w);
    assert RequestInv(w.shared, w.requests[i]);
  }

  // What the row says to whoever comes after it.
  function AnswerFrom(row: KeyRow, endpoint: Endpoint, requestHash: string): Answer
    requires row.reply.Some?
  {
    if row.requestHash != requestHash then HashMismatch
    else if Readable(endpoint, row.reply.value.body) then Replayed(row.reply.value)
    else Unreadable
  }

  // A request that had not begun when the reply was stored.
  predicate Late(w: World, w': World, k: Key, j: int)
  {
    && 0 <= j < |w'.requests| && w'.requests[j].key == k
    && (j < |w.requests| ==> w.requests[j].stage.Arrived?)
  }

  predicate AnsweredLate(row: KeyRow, r: Request)
    requires row.reply.Some?
  {
    r.stage.Arrived? || r.stage.Dead? || r.stage == Answered(AnswerFrom(row, r.endpoint, r.requestHash))
  }

  // Only a request still under way can change its key.
  predicate Closed(w: World, k: Key)
  {
    && k in w.shared.rows && w.shared.rows[k].reply.Some?
    && forall i | 0 <= i < |w.requests| && w.requests[i].key == k :: !w.requests[i].stage.Working()
  }

  lemma ClosedStep(w: World, now: World, e: Event, w': World, k: Key)
    requires Closed(now, k) && Next(now, e) == Some(w') && |w.requests| <= |now.requests|
    requires forall j | Late(w, now, k, j) :: AnsweredLate(now.shared.rows[k], now.requests[j])
    ensures Closed(w', k) && SameFor(now.shared, w'.shared, k) && |w.requests| <= |w'.requests|
    ensures forall j | Late(w, w', k, j) :: AnsweredLate(w'.shared.rows[k], w'.requests[j])
  {
    forall j | Late(w, w', k, j) ensures AnsweredLate(w'.shared.rows[k], w'.requests[j]) {
      if j < |now.requests| { assert Late(w, now, k, j); }
    }
  }

  lemma {:induction false} ClosedForever(w: World, events: seq<Event>, w': World, k: Key)
    requires Closed(w, k) && Run(w, events) == Some(w')
    ensures Closed(w', k) && SameFor(w.shared, w'.shared, k) && |w.requests| <= |w'.requests|
    ensures forall j | Late(w, w', k, j) :: AnsweredLate(w'.shared.rows[k], w'.requests[j])
  {
    hide Next, Closed, AnsweredLate;
    if events == [] {
      NotBegun(w, k);
    } else {
      var before := Run(w, events[..|events| - 1]).value;
      ClosedForever(w, events[..|events| - 1], before, k);
      ClosedStep(w, before, events[|events| - 1], w', k);
    }
  }

  lemma NotBegun(w: World, k: Key)
    requires Closed(w, k)
    ensures SameFor(w.shared, w.shared, k) && forall j | Late(w, w, k, j) :: AnsweredLate(w.shared.rows[k], w.requests[j])
  {
  }

  // In a reachable world a stored reply has nobody left working on its key.
  lemma StoredIsClosed(events: seq<Event>, w: World, k: Key)
    requires Run(EMPTY, events) == Some(w) && k in w.shared.rows && w.shared.rows[k].reply.Some?
    ensures Closed(w, k)
  {
    RunKeepsInv(events, w);
    forall i | 0 <= i < |w.requests| && w.requests[i].key == k ensures !w.requests[i].stage.Working() {
      assert RequestInv(w.shared, w.requests[i]);
    }
  }

  // Once a reply is stored, in every continuation its key causes nothing more, and whoever had not begun by then is
  // answered from the row: the reply is replayed exactly to the same request at an endpoint that can read it.
  lemma LateRequestsAreAnsweredFromTheRow(
      events: seq<Event>, w: World, more: seq<Event>, w': World, k: Key, j: nat)
    requires Run(EMPTY, events) == Some(w) && k in w.shared.rows && w.shared.rows[k].reply.Some?
    requires Run(w, more) == Some(w') && Late(w, w', k, j) && w'.requests[j].stage.Answered?
    ensures SameFor(w.shared, w'.shared, k)
    ensures var (row, r) := (w.shared.rows[k], w'.requests[j]);
            && r.stage.answer == AnswerFrom(row, r.endpoint, r.requestHash)
            && (r.stage.answer == Replayed(row.reply.value) <==>
                r.requestHash == row.requestHash && Readable(r.endpoint, row.reply.value.body))
  {
    StoredIsClosed(events, w, k);
    ClosedForever(w, more, w', k);
    assert AnsweredLate(w'.shared.rows[k], w'.requests[j]);
  }

  // So the retry a stored failure is meant to free never happens: in every continuation it is answered with an error,
  // and no run, job or message comes of it.
  lemma FailureIsNotRetried(events: seq<Event>, w: World, more: seq<Event>, w': World, k: Key, j: nat)
    requires Run(EMPTY, events) == Some(w)
    requires k in w.shared.rows && w.shared.rows[k].reply.Some? && w.shared.rows[k].reply.value.body.ErrorBody?
    requires Run(w, more) == Some(w') && Late(w, w', k, j) && w'.requests[j].stage.Answered?
    ensures SameFor(w.shared, w'.shared, k)
    ensures w'.requests[j].stage.answer == if w'.requests[j].requestHash == w.shared.rows[k].requestHash then Unreadable else HashMismatch
  {
    LateRequestsAreAnsweredFromTheRow(events, w, more, w', k, j);
  }

  // A handler that dies after its INSERT leaves its key answering 409 for good.
  predicate Abandoned(w: World, k: Key)
  {
    k in w.shared.rows && w.shared.rows[k].reply.None?
    && forall i | 0 <= i < |w.requests| && w.requests[i].key == k :: !w.requests[i].stage.Working()
  }

  lemma AbandonedStep(w: World, k: Key, e: Event, w': World)
    requires Abandoned(w, k) && Next(w, e) == Some(w')
    ensures Abandoned(w', k) && SameFor(w.shared, w'.shared, k)
  {
  }

  lemma {:induction false} AbandonedForever(w: World, k: Key, events: seq<Event>, w': World)
    requires Abandoned(w, k) && Run(w, events) == Some(w')
    ensures Abandoned(w', k) && SameFor(w.shared, w'.shared, k)
  {
    hide Next, Abandoned;
    if events != [] {
      var before := Run(w, events[..|events| - 1]).value;
      AbandonedForever(w, k, events[..|events| - 1], before);
      AbandonedStep(before, k, events[|events| - 1], w');
    }
  }

  // A death after the insert is what leads there.
  lemma DeathAbandons(events: seq<Event>, w: World, i: nat, w': World)
    requires Run(EMPTY, events) == Some(w) && i < |w.requests| && w.requests[i].stage.Working()
    requires Next(w, Die(i)) == Some(w')
    ensures Abandoned(w', w.requests[i].key)
  {
    RunKeepsInv(events, w);
    assert RequestInv(w.shared, w.requests[i]);
  }

  // The key gets a reply in this continuation.
  predicate RepliedAfter(w: World, k: Key, more: seq<Event>)
  {
    Run(w, more).Some? &&
    var rows := Run(w, more).value.shared.rows; k in rows && rows[k].reply.Some?
  }

  // A working request that nothing interrupts stores a reply.
  lemma {:induction false} WorkerReplies(w: World, i: nat, c: Choice) returns (more: seq<Event>)
    requires Inv(w) && i < |w.requests| && w.requests[i].stage.Working() && c.failureStatus in {503, 504}
    ensures RepliedAfter(w, w.requests[i].key, more)
    decreases StepsLeft(w.requests[i].stage)
  {
    hide Inv, RequestStep, RepliedAfter, Run;
    var k := w.requests[i].key;
    var w' := Next(w, Step(i, c)).value;
    StepKeepsInv(w, i, c, w');
    WorkerMoves(w, i, c, w');
    if w'.requests[i].stage.Working() {
      var rest := WorkerReplies(w', i, c);
      RepliedLater(w, Step(i, c), w', k, rest);
      more := [Step(i, c)] + rest;
    } else {
      RepliedNow(w', k);
      RepliedLater(w, Step(i, c), w', k, []);
      more := [Step(i, c)] + [];
    }
  }

  lemma WorkerMoves(w: World, i: nat, c: Choice, w': World)
    requires Inv(w) && i < |w.requests| && w.requests[i].stage.Working() && Next(w, Step(i, c)) == Some(w')
    ensures i < |w'.requests| && w'.requests[i].key == w.requests[i].key
    ensures StepsLeft(w'.requests[i].stage) < StepsLeft(w.requests[i].stage)
    ensures !w'.requests[i].stage.Working() ==>
              w.requests[i].key in w'.shared.rows && w'.shared.rows[w.requests[i].key].reply.Some?
  {
    assert RequestInv(w.shared, w.requests[i]);
  }

  lemma RepliedNow(w: World, k: Key)
    requires k in w.shared.rows && w.shared.rows[k].reply.Some?
    ensures RepliedAfter(w, k, [])
  {
  }

  lemma RepliedLater(w: World, e: Event, w': World, k: Key, rest: seq<Event>)
    requires Next(w, e) == Some(w') && RepliedAfter(w', k, rest)
    ensures RepliedAfter(w, k, [e] + rest)
  {
    RunFromNext(w, e, w', rest);
  }

  lemma {:induction false} RunFromNext(w: World, e: Event, w': World, rest: seq<Event>)
    requires Next(w, e) == Some(w')
    ensures Run(w, [e] + rest) == Run(w', rest)
  {
    hide Next;
    if rest == [] {
      assert [e] + rest == [e] && [e][..0] == [];
    } else {
      RunFromNext(w, e, w', rest[..|rest| - 1]);
      assert ([e] + rest)[..|rest|] == [e] + rest[..|rest| - 1];
    }
  }

  // A key waiting for its reply will get none, in any continuation, exactly when it is abandoned.
  lemma AbandonedExactly(events: seq<Event>, w: World, k: Key)
    requires Run(EMPTY, events) == Some(w) && k in w.shared.rows && w.shared.rows[k].reply.None?
    ensures Abandoned(w, k) <==> forall more: seq<Event> :: !RepliedAfter(w, k, more)
  {
    if Abandoned(w, k) {
      forall more: seq<Event> ensures !RepliedAfter(w, k, more) {
        if Run(w, more).Some? { AbandonedForever(w, k, more, Run(w, more).value); }
      }
    } else {
      var i :| 0 <= i < |w.requests| && w.requests[i].key == k && w.requests[i].stage.Working();
      RunKeepsInv(events, w);
      var more := WorkerReplies(w, i, Choice(true, true, 503));
    }
  }

  // ---- The endpoints, uninterrupted ------------------------------------------

  function RunAlone(s: Shared, r: Request, c: Choice): (res: (Shared, Request))
    ensures res.1.stage.Answered? || r.stage.Dead?
    decreases StepsLeft(r.stage)
  {
    if r.stage.Answered? || r.stage.Dead? then (s, r)
    else var (s', r') := RequestStep(s, r, c); RunAlone(s', r', c)
  }

  lemma Unfold(s: Shared, r: Request, c: Choice)
    requires !r.stage.Answered? && !r.stage.Dead?
    ensures RunAlone(s, r, c) == var (s', r') := RequestStep(s, r, c); RunAlone(s', r', c)
  {
  }

  // What a request that won its INSERT leaves behind when nothing interrupts it.
  function Outcome(s: Shared, r: Request, c: Choice): (res: (Shared, Reply))
    requires r.key !in s.rows
  {
    var reply :=
      if !c.accepted then Reply(429, ErrorBody)
      else if r.endpoint.SubmitJob? then Reply(202, JobBody(r.id))
      else if c.runOk then Reply(200, RunBody(r.id))
      else Reply(c.failureStatus, ErrorBody);
    var ran := c.accepted && r.endpoint.Invoke?;
    var queued := c.accepted && r.endpoint.SubmitJob?;
    (Shared(s.rows[r.key := KeyRow(r.requestHash, Some(reply))],
            if c.accepted then s.reservations + multiset{r.key} else s.reservations,
            if ran then s.runs + multiset{r.key} else s.runs,
            if queued then s.jobs + multiset{r.key} else s.jobs,
            if queued then s.messages + multiset{r.key} else s.messages), reply)
  }

  lemma CompleteAfterBegin(rows: map<Key, KeyRow>, key: Key, requestHash: string, reply: Reply)
    requires key !in rows
    ensures CompleteRow(BeginRow(rows, key, requestHash).0, key, reply) == rows[key := KeyRow(requestHash, Some(reply))]
  {
  }

  lemma TurnedAwayAlone(s: Shared, r: Request, c: Choice)
    requires r.stage.Arrived? && r.key !in s.rows && !c.accepted
    ensures var (s', reply) := Outcome(s, r, c);
            RunAlone(s, r, c) == (s', r.(stage := Answered(Fresh(reply))))
  {
    hide RunAlone, BeginRow, CompleteRow;
    CompleteAfterBegin(s.rows, r.key, r.requestHash, Outcome(s, r, c).1);
    BeginWins(s.rows, r.key, r.requestHash);
    Unfold(s, r, c);
    var (s1, r1) := RequestStep(s, r, c);
    Unfold(s1, r1, c);
    var (s2, r2) := RequestStep(s1, r1, c);
    Unfold(s2, r2, c);
    var (s3, r3) := RequestStep(s2, r2, c);
    AnsweredAlone(s3, r3, c);
  }

  // From the reservation on.
  lemma ReservedAlone(s: Shared, r: Request, c: Choice)
    requires r.stage.Reserved?
    ensures RunAlone(s, r, c) ==
              if r.endpoint.Invoke? then
                Finish(s.(runs := s.runs + multiset{r.key}), r,
                       if c.runOk then Reply(200, RunBody(r.id)) else Reply(c.failureStatus, ErrorBody))
              else
                Finish(s.(jobs := s.jobs + multiset{r.key}, messages := s.messages + multiset{r.key}), r,
                       Reply(202, JobBody(r.id)))
  {
    hide RunAlone, CompleteRow;
    Unfold(s, r, c);
    var (s1, r1) := RequestStep(s, r, c);
    Unfold(s1, r1, c);
    var (s2, r2) := RequestStep(s1, r1, c);
    Unfold(s2, r2, c);
    var (s3, r3) := RequestStep(s2, r2, c);
    AnsweredAlone(s3, r3, c);
  }

  lemma AcceptedAlone(s: Shared, r: Request, c: Choice)
    requires r.stage.Arrived? && r.key !in s.rows && c.accepted
    ensures var (s', reply) := Outcome(s, r, c);
            RunAlone(s, r, c) == (s', r.(stage := Answered(Fresh(reply))))
  {
    hide RunAlone, BeginRow, CompleteRow;
    CompleteAfterBegin(s.rows, r.key, r.requestHash, Outcome(s, r, c).1);
    BeginWins(s.rows, r.key, r.requestHash);
    Unfold(s, r, c);
    var (s1, r1) := RequestStep(s, r, c);
    Unfold(s1, r1, c);
    var (s2, r2) := RequestStep(s1, r1, c);
    ReservedAlone(s2, r2, c);
  }

  lemma WinnerAlone(s: Shared, r: Request, c: Choice)
    requires r.stage.Arrived? && r.key !in s.rows
    ensures var (s', reply) := Outcome(s, r, c);
            RunAlone(s, r, c) == (s', r.(stage := Answered(Fresh(reply))))
  {
    hide RunAlone, Outcome;
    if !c.accepted {
      TurnedAwayAlone(s, r, c);
    } else {
      AcceptedAlone(s, r, c);
    }
  }

  lemma BeginWins(rows: map<Key, KeyRow>, key: Key, requestHash: string)
    ensures BeginRow(rows, key, requestHash).1 == (key !in rows)
  {
  }

  lemma AnsweredAlone(s: Shared, r: Request, c: Choice)
    requires r.stage.Answered?
    ensures RunAlone(s, r, c) == (s, r)
  {
  }

  lemma LoserAlone(s: Shared, r: Request, c: Choice)
    requires r.stage.Arrived? && r.key in s.rows
    ensures RunAlone(s, r, c) == (s, r.(stage := Answered(LosersAnswer(s.rows[r.key], r.endpoint, r.requestHash))))
  {
    hide RunAlone;
    Unfold(s, r, c);
    AnsweredAlone(s, RequestStep(s, r, c).1, c);
  }

  // What the sender of a duplicate may conclude from each answer.
  predicate ToldDuplicate(row: KeyRow, endpoint: Endpoint, requestHash: string, answer: Answer)
  {
    && (answer == HashMismatch <==> row.requestHash != requestHash)
    && (answer == InProgress <==> row.requestHash == requestHash && row.reply.None?)
    && (answer.Replayed? <==>
          row.requestHash == requestHash && row.reply.Some?
          && (if endpoint.Invoke? then row.reply.value.body.RunBody? else row.reply.value.body.JobBody?))
    && (answer.Replayed? ==> Some(answer.reply) == row.reply)
    && !answer.Fresh?
  }

  // A duplicate, whenever it comes in a run, is told whether it differs from the first request, whether that one is still in
  // progress, or what it was answered; it changes nothing.
  lemma DuplicatesAreTold(events: seq<Event>, w: World, i: nat, c: Choice, w': World)
    requires Run(EMPTY, events) == Some(w) && i < |w.requests| && w.requests[i].stage.Arrived?
    requires w.requests[i].key in w.shared.rows && Next(w, Step(i, c)) == Some(w')
    ensures var r := w.requests[i];
            && w'.shared == w.shared && w'.requests[i].stage.Answered?
            && ToldDuplicate(w.shared.rows[r.key], r.endpoint, r.requestHash, w'.requests[i].stage.answer)
  {
  }

  class KeyTable {
    var rows: map<Key, KeyRow>

    constructor ()
      ensures rows == map[]
    {
      rows := map[];
    }

    method TryBegin(key: Key, requestHash: string) returns (won: bool)
      modifies this
      ensures (rows, won) == BeginRow(old(rows), key, requestHash)
    {
      won := key !in rows;
      if won { rows := rows[key := KeyRow(requestHash, None)]; }
    }

    method Complete(key: Key, reply: Reply)
      modifies this
      ensures rows == CompleteRow(old(rows), key, reply)
    {
      if key in rows { rows := rows[key := rows[key].(reply := Some(reply))]; }
    }
  }

  class Endpoints {
    const table: KeyTable
    var reservations: multiset<Key>
    var runs: multiset<Key>
    var jobs: multiset<Key>
    var messages: multiset<Key>

    ghost function View(): Shared
      reads this, table
    {
      Shared(table.rows, reservations, runs, jobs, messages)
    }

    constructor (table: KeyTable)
      ensures this.table == table && View() == Shared(table.rows, multiset{}, multiset{}, multiset{}, multiset{})
    {
      this.table := table;
      reservations, runs, jobs, messages := multiset{}, multiset{}, multiset{}, multiset{};
    }

    // A first request: the reply it earned is stored and answered, and only an accepted one reserves and runs.
    method Invoke(key: Key, requestHash: string, id: nat, c: Choice) returns (answer: Answer)
      modifies this, table
      ensures key !in old(table.rows) ==>
                var reply := if !c.accepted then Reply(429, ErrorBody)
                             else if c.runOk then Reply(200, RunBody(id)) else Reply(c.failureStatus, ErrorBody);
                var did := if c.accepted then multiset{key} else multiset{};
                && answer == Fresh(reply) && table.rows == old(table.rows)[key := KeyRow(requestHash, Some(reply))]
                && reservations == old(reservations) + did && runs == old(runs) + did
                && jobs == old(jobs) && messages == old(messages)
      ensures key in old(table.rows) ==>
                && ToldDuplicate(old(table.rows)[key], Endpoint.Invoke, requestHash, answer) && table.rows == old(table.rows)
                && (reservations, runs, jobs, messages) == old((reservations, runs, jobs, messages))
      ensures var (after, r) := RunAlone(old(View()), Request(Endpoint.Invoke, key, requestHash, id, Arrived), c);
              View() == after && r.stage == Answered(answer)
    {
      hide RunAlone, RequestStep;
      ghost var r := Request(Endpoint.Invoke, key, requestHash, id, Arrived);
      var won := table.TryBegin(key, requestHash);
      if !won {
        answer := LosersAnswer(table.rows[key], Endpoint.Invoke, requestHash);
        LoserAlone(View(), r, c);
        return;
      }
      WinnerAlone(old(View()), r, c);
      var reply;
      if !c.accepted {
        reply := Reply(429, ErrorBody);
      } else {
        reservations := reservations + multiset{key};
        runs := runs + multiset{key};
        reply := if c.runOk then Reply(200, RunBody(id)) else Reply(c.failureStatus, ErrorBody);
      }
      table.Complete(key, reply);
      CompleteAfterBegin(old(table.rows), key, requestHash, reply);
      answer := Fresh(reply);
      assert View() == Outcome(old(View()), r, c).0;
    }

    method SubmitJob(key: Key, requestHash: string, id: nat, c: Choice) returns (answer: Answer)
      modifies this, table
      ensures key !in old(table.rows) ==>
                var reply := if !c.accepted then Reply(429, ErrorBody) else Reply(202, JobBody(id));
                var did := if c.accepted then multiset{key} else multiset{};
                && answer == Fresh(reply) && table.rows == old(table.rows)[key := KeyRow(requestHash, Some(reply))]
                && reservations == old(reservations) + did && jobs == old(jobs) + did && messages == old(messages) + did
                && runs == old(runs)
      ensures key in old(table.rows) ==>
                && ToldDuplicate(old(table.rows)[key], Endpoint.SubmitJob, requestHash, answer) && table.rows == old(table.rows)
                && (reservations, runs, jobs, messages) == old((reservations, runs, jobs, messages))
      ensures var (after, r) := RunAlone(old(View()), Request(Endpoint.SubmitJob, key, requestHash, id, Arrived), c);
              View() == after && r.stage == Answered(answer)
    {
      hide RunAlone, RequestStep;
      ghost var r := Request(Endpoint.SubmitJob, key, requestHash, id, Arrived);
      var won := table.TryBegin(key, requestHash);
      if !won {
        answer := LosersAnswer(table.rows[key], Endpoint.SubmitJob, requestHash);
        LoserAlone(View(), r, c);
        return;
      }
      WinnerAlone(old(View()), r, c);
      var reply;
      if !c.accepted {
        reply := Reply(429, ErrorBody);
      } else {
        reservations := reservations + multiset{key};
        jobs := jobs + multiset{key};
        messages := messages + multiset{key};
        reply := Reply(202, JobBody(id));
      }
      table.Complete(key, reply);
      CompleteAfterBegin(old(table.rows), key, requestHash, reply);
      answer := Fresh(reply);
      assert View() == Outcome(old(View()), r, c).0;
    }
  }
}
