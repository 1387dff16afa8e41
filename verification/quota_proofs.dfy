/** What every run of the ledger keeps, and exactly when the counter dips or an estimate is lost. */
module QuotaProofs {
  import opened Collections
  import opened Sums
  import opened Wrappers
  import opened Quota

  // ---- Conservation ---------------------------------------------------------

  function OpenPart(s: Slot): int { if s.Open? then s.r.estimated else 0 }
  function ActualPart(s: Slot): int { if s.Reconciled? then s.actual else 0 }
  function LostPart(s: Slot): int { if s.Lost? then s.r.estimated else 0 }
  function Overrun(s: Slot): int { if s.Reconciled? then Max(0, s.actual - s.r.estimated) else 0 }
  function Charge(s: Slot): int { OpenPart(s) + ActualPart(s) + LostPart(s) }

  predicate Conserved(pool: Pool, l: Ledger)
  {
    && Value(l.counter) == Sum(l.slots, Charge) - l.wiped
    && Value(l.counter) <= pool.limit + l.overrun
    && 0 <= l.overrun <= Sum(l.slots, Overrun)
  }

  lemma {:induction false} ExpiryMovesNothing(slots: seq<Slot>, now: real)
    ensures Sum(ExpireSlots(slots, now), Charge) == Sum(slots, Charge)
    ensures Sum(ExpireSlots(slots, now), Overrun) == Sum(slots, Overrun)
  {
    if slots != [] {
      var n := |slots| - 1;
      ExpiryMovesNothing(slots[..n], now);
      assert ExpireSlots(slots, now)[..n] == ExpireSlots(slots[..n], now);
    }
  }

  lemma OverrunGrows(slots: seq<Slot>)
    ensures Sum(slots, Overrun) >= 0
  {
    SumNonNegative(slots, Overrun);
  }

  lemma TickConserves(pool: Pool, l: Ledger, elapsed: real)
    requires Conserved(pool, l)
    ensures Conserved(pool, TimePasses(l, elapsed))
  {
    ExpiryMovesNothing(l.slots, l.now + elapsed);
    OverrunGrows(l.slots);
  }

  lemma ReserveConserves(pool: Pool, l: Ledger, r: Reservation)
    requires Conserved(pool, l)
    ensures Conserved(pool, ReserveScript(pool, l, r))
  {
    hide Charge, Overrun;
    SumAppend(l.slots, Open(r), Charge);
    SumAppend(l.slots, Open(r), Overrun);
    OpenCharge(r);
  }

  lemma OpenCharge(r: Reservation)
    ensures Charge(Open(r)) == r.estimated && Overrun(Open(r)) == 0
  {
  }

  lemma SettleConserves(pool: Pool, l: Ledger, key: nat, s: Slot, counter: Counter)
    requires Conserved(pool, l) && key < |l.slots| && l.slots[key].Open?
    requires Value(counter) == Value(l.counter) - Charge(l.slots[key]) + Charge(s)
    requires Charge(s) - Charge(l.slots[key]) <= Overrun(s)
    ensures Conserved(pool, l.(counter := counter, slots := l.slots[key := s], overrun := l.overrun + Overrun(s)))
  {
    SumUpdate(l.slots, key, s, Charge);
    SumUpdate(l.slots, key, s, Overrun);
  }

  lemma NextConserves(pool: Pool, l: Ledger, e: Event, l': Ledger)
    requires Conserved(pool, l) && Next(pool, l, e) == Some(l')
    ensures Conserved(pool, l')
  {
    hide Conserved, TimePasses, ReserveScript;
    match e {
      case Tick(elapsed) => TickConserves(pool, l, elapsed);
      case Reserve(askedAt, deadlineSeconds, estimated) =>
        ReserveConserves(pool, l, ReservationFor(l, askedAt, deadlineSeconds, estimated));
      case Reconcile(key, actual) =>
        if l' != l { SettleConserves(pool, l, key, l'.slots[key], l'.counter); }
      case Sweep(key, at) =>
        if l' != l { SettleConserves(pool, l, key, l'.slots[key], l'.counter); }
    }
  }

  lemma {:induction false} RunConserves(pool: Pool, events: seq<Event>, l: Ledger)
    requires Run(pool, EMPTY, events) == Some(l)
    ensures Conserved(pool, l)
  {
    if events != [] {
      var before := Run(pool, EMPTY, events[..|events| - 1]).value;
      RunConserves(pool, events[..|events| - 1], before);
      NextConserves(pool, before, events[|events| - 1], l);
    }
  }

  lemma {:induction false} ChargeSplits(slots: seq<Slot>)
    ensures Sum(slots, Charge) == Sum(slots, OpenPart) + Sum(slots, ActualPart) + Sum(slots, LostPart)
  {
    if slots != [] {
      ChargeSplits(slots[..|slots| - 1]);
    }
  }

  // Over any interleaving: the counter holds open estimates, reconciled actuals and estimates lost to
  // expiry, less what the window wiped; and it passes the limit only by overruns of its own window.
  lemma CounterIsAccountedFor(pool: Pool, events: seq<Event>, l: Ledger)
    requires Run(pool, EMPTY, events) == Some(l)
    ensures Value(l.counter) ==
              Sum(l.slots, OpenPart) + Sum(l.slots, ActualPart) + Sum(l.slots, LostPart) - l.wiped
    ensures Value(l.counter) <= pool.limit + l.overrun && 0 <= l.overrun <= Sum(l.slots, Overrun)
  {
    RunConserves(pool, events, l);
    ChargeSplits(l.slots);
  }

  // ---- When the counter can go negative ---------------------------------------

  // The window ends while a reservation that asked for something is still open.
  predicate CarriesOver(l: Ledger, e: Event)
  {
    && e.Tick? && Wipes(l, e.elapsed)
    && exists i | 0 <= i < |l.slots| :: StillOwed(ExpireSlot(l.slots[i], l.now + e.elapsed))
  }

  predicate StillOwed(s: Slot)
  {
    s.Open? && s.r.estimated > 0
  }

  ghost predicate NeverCarries(pool: Pool, events: seq<Event>)
  {
    forall n | 0 <= n < |events| :: !CarriesAt(pool, events, n)
  }

  ghost predicate CarriesAt(pool: Pool, events: seq<Event>, n: int)
    requires 0 <= n < |events|
  {
    Run(pool, EMPTY, events[..n]).Some? && CarriesOver(Run(pool, EMPTY, events[..n]).value, events[n])
  }

  // However the reservations open now are reconciled, the counter stays non-negative.
  ghost predicate Solvent(l: Ledger)
  {
    forall bills: seq<(nat, nat)> :: Value(Billed(l, bills).counter) >= 0
  }

  function Billed(l: Ledger, bills: seq<(nat, nat)>): Ledger
  {
    if bills == [] then l
    else
      var (key, actual) := bills[|bills| - 1];
      ReconcileScript(Billed(l, bills[..|bills| - 1]), key, actual)
  }

  // Every open estimate is still in the counter.
  predicate Backed(l: Ledger)
  {
    Value(l.counter) >= Sum(l.slots, OpenPart)
  }

  lemma {:induction false} BillsKeepBacked(l: Ledger, bills: seq<(nat, nat)>)
    requires Backed(l)
    ensures Backed(Billed(l, bills))
  {
    if bills != [] {
      var (key, actual) := bills[|bills| - 1];
      var before := Billed(l, bills[..|bills| - 1]);
      BillsKeepBacked(l, bills[..|bills| - 1]);
      ReconcileMoves(before, key, actual);
    }
  }

  // A reconcile moves counter and open estimates alike, but for what was really used.
  lemma ReconcileMoves(l: Ledger, key: nat, actual: nat)
    ensures var l' := ReconcileScript(l, key, actual);
            Value(l'.counter) - Sum(l'.slots, OpenPart) ==
            Value(l.counter) - Sum(l.slots, OpenPart) + if key < |l.slots| && l.slots[key].Open? then actual else 0
  {
    if key < |l.slots| && l.slots[key].Open? {
      SumUpdate(l.slots, key, Reconciled(l.slots[key].r, actual), OpenPart);
    }
  }

  // Every reservation below n billed at nothing.
  function Refunds(n: nat): (bills: seq<(nat, nat)>)
    ensures |bills| == n && forall k | 0 <= k < n :: bills[k] == (k, 0)
  {
    seq(n, k => (k, 0))
  }

  lemma {:induction false} RefundsClose(l: Ledger, n: nat)
    requires n <= |l.slots|
    ensures var l' := Billed(l, Refunds(n));
            && |l'.slots| == |l.slots| && (forall k | 0 <= k < n :: !l'.slots[k].Open?)
            && (forall k | n <= k < |l.slots| :: l'.slots[k] == l.slots[k])
            && Value(l'.counter) - Sum(l'.slots, OpenPart) == Value(l.counter) - Sum(l.slots, OpenPart)
  {
    if n > 0 {
      RefundsClose(l, n - 1);
      assert Refunds(n)[..n - 1] == Refunds(n - 1);
      ReconcileMoves(Billed(l, Refunds(n - 1)), n - 1, 0);
    }
  }

  lemma {:induction false} NoOpenPart(slots: seq<Slot>)
    requires forall i | 0 <= i < |slots| :: !StillOwed(slots[i])
    ensures Sum(slots, OpenPart) == 0
  {
    if slots != [] {
      NoOpenPart(slots[..|slots| - 1]);
    }
  }

  lemma SolventIffBacked(l: Ledger)
    ensures Solvent(l) <==> Backed(l)
  {
    if Backed(l) {
      forall bills: seq<(nat, nat)> ensures Value(Billed(l, bills).counter) >= 0 {
        BillsKeepBacked(l, bills);
        SumNonNegative(Billed(l, bills).slots, OpenPart);
      }
    } else {
      var n := |l.slots|;
      RefundsClose(l, n);
      NoOpenPart(Billed(l, Refunds(n)).slots);
      assert Value(Billed(l, Refunds(n)).counter) < 0;
    }
  }

  lemma {:induction false} ExpiryOwesLess(slots: seq<Slot>, now: real)
    ensures 0 <= Sum(ExpireSlots(slots, now), OpenPart) <= Sum(slots, OpenPart)
  {
    if slots != [] {
      var n := |slots| - 1;
      ExpiryOwesLess(slots[..n], now);
      assert ExpireSlots(slots, now)[..n] == ExpireSlots(slots[..n], now);
    }
  }

  // What is still owed when the window ends is no longer backed by anything.
  lemma OwedUnbacks(slots: seq<Slot>, i: nat)
    requires i < |slots| && StillOwed(slots[i])
    ensures Sum(slots, OpenPart) > 0
  {
    SumNonNegative(slots, OpenPart);
    assert slots[i] in slots;
  }

  lemma TickBacked(l: Ledger, elapsed: real)
    requires Backed(l) && elapsed >= 0.0
    ensures Backed(TimePasses(l, elapsed)) <==> !CarriesOver(l, Tick(elapsed))
  {
    hide StillOwed;
    var after := ExpireSlots(l.slots, l.now + elapsed);
    ExpiryOwesLess(l.slots, l.now + elapsed);
    if Wipes(l, elapsed) {
      if CarriesOver(l, Tick(elapsed)) {
        var i :| 0 <= i < |l.slots| && StillOwed(ExpireSlot(l.slots[i], l.now + elapsed));
        OwedUnbacks(after, i);
      } else {
        NoOpenPart(after);
      }
    }
  }

  lemma NextBacked(pool: Pool, l: Ledger, e: Event, l': Ledger)
    requires Backed(l) && Next(pool, l, e) == Some(l')
    ensures Backed(l') <==> !CarriesOver(l, e)
  {
    hide TimePasses, CarriesOver, ReconcileScript, Backed;
    match e {
      case Tick(elapsed) => TickBacked(l, elapsed);
      case Reserve(askedAt, deadlineSeconds, estimated) =>
        ReserveBacked(pool, l, ReservationFor(l, askedAt, deadlineSeconds, estimated));
        OnlyTicksCarry(l, e);
      case Reconcile(key, actual) =>
        ReconcileBacked(l, key, actual);
        OnlyTicksCarry(l, e);
      case Sweep(key, at) =>
        SweepBacked(l, key, at);
        OnlyTicksCarry(l, e);
    }
  }

  lemma OnlyTicksCarry(l: Ledger, e: Event)
    requires !e.Tick?
    ensures !CarriesOver(l, e)
  {
  }

  lemma ReserveBacked(pool: Pool, l: Ledger, r: Reservation)
    requires Backed(l)
    ensures Backed(ReserveScript(pool, l, r))
  {
    SumAppend(l.slots, Open(r), OpenPart);
  }

  lemma ReconcileBacked(l: Ledger, key: nat, actual: nat)
    requires Backed(l)
    ensures Backed(ReconcileScript(l, key, actual))
  {
    ReconcileMoves(l, key, actual);
  }

  lemma SweepBacked(l: Ledger, key: nat, at: real)
    requires Backed(l)
    ensures Backed(SweepScript(l, key, at).0)
  {
    if SweepScript(l, key, at).1 {
      SumUpdate(l.slots, key, Swept(l.slots[key].r), OpenPart);
    }
  }

  ghost predicate AlwaysSolvent(pool: Pool, events: seq<Event>)
  {
    forall n | 0 <= n <= |events| :: SolventAt(pool, events, n)
  }

  ghost predicate SolventAt(pool: Pool, events: seq<Event>, n: int)
    requires 0 <= n <= |events|
  {
    Run(pool, EMPTY, events[..n]).Some? ==> Solvent(Run(pool, EMPTY, events[..n]).value)
  }

  // All along a run the counter stays non-negative, however what is open then gets reconciled, exactly when no window
  // ends while a reservation with an estimate is open.
  lemma {:induction false} NonNegativeExactly(pool: Pool, events: seq<Event>, l: Ledger)
    requires Run(pool, EMPTY, events) == Some(l)
    ensures AlwaysSolvent(pool, events) <==> NeverCarries(pool, events)
    ensures NeverCarries(pool, events) ==> Backed(l) && Value(l.counter) >= 0
  {
    hide Next, CarriesOver, Solvent, Backed;
    assert events[..|events|] == events;
    SolventIffBacked(l);
    if events == [] {
      EmptyIsBacked();
    } else {
      var (init, e) := (events[..|events| - 1], events[|events| - 1]);
      var before := Run(pool, EMPTY, init).value;
      NonNegativeExactly(pool, init, before);
      PrefixesAgree(pool, events);
      assert CarriesAt(pool, events, |events| - 1) <==> CarriesOver(before, e);
      assert SolventAt(pool, events, |events|) <==> Solvent(l);
      if NeverCarries(pool, init) {
        NextBacked(pool, before, e, l);
      }
    }
    if Backed(l) { BackedIsNonNegative(l); }
  }

  lemma EmptyIsBacked()
    ensures Backed(EMPTY)
  {
  }

  lemma BackedIsNonNegative(l: Ledger)
    requires Backed(l)
    ensures Value(l.counter) >= 0
  {
    SumNonNegative(l.slots, OpenPart);
  }

  lemma PrefixesAgree(pool: Pool, events: seq<Event>)
    requires events != []
    ensures var init := events[..|events| - 1];
            && (NeverCarries(pool, events) <==> NeverCarries(pool, init) && !CarriesAt(pool, events, |events| - 1))
            && (AlwaysSolvent(pool, events) <==> AlwaysSolvent(pool, init) && SolventAt(pool, events, |events|))
  {
    hide Run, CarriesOver, Solvent;
    var k := |events| - 1;
    var init := events[..k];
    forall n | 0 <= n < k ensures CarriesAt(pool, events, n) <==> CarriesAt(pool, init, n) {
      assert init[..n] == events[..n] && init[n] == events[n];
    }
    forall n | 0 <= n <= k ensures SolventAt(pool, events, n) <==> SolventAt(pool, init, n) {
      assert init[..n] == events[..n];
    }
  }

  // Within the first window, before anything was wiped, the counter is never negative.
  lemma FirstWindowNonNegative(pool: Pool, events: seq<Event>, l: Ledger)
    requires Run(pool, EMPTY, events) == Some(l) && l.wiped == 0
    ensures 0 <= Value(l.counter)
  {
    RunConserves(pool, events, l);
    SumNonNegative(l.slots, Charge);
  }

  // Across a window it can be: a run begun before the wipe is reconciled after it, below its estimate,
  // and leaves a negative counter that no TTL clears.
  lemma CounterCanGoNegative(pool: Pool) returns (events: seq<Event>, l: Ledger)
    requires pool.limit >= 10 && pool.windowSeconds == 3600
    ensures Run(pool, EMPTY, events) == Some(l)
    ensures l.counter == Held(-6, None)
  {
    events, l := [], EMPTY;
    events, l := Then(pool, events, l, Reserve(0.0, 30.0, 0));
    events, l := Then(pool, events, l, Tick(3590.0));
    events, l := Then(pool, events, l, Reserve(3590.0, 30.0, 10));
    events, l := Then(pool, events, l, Tick(10.0));
    events, l := Then(pool, events, l, Reconcile(1, 4));
  }

  lemma Then(pool: Pool, events: seq<Event>, l: Ledger, e: Event) returns (events': seq<Event>, l': Ledger)
    requires Run(pool, EMPTY, events) == Some(l) && Next(pool, l, e).Some?
    ensures Next(pool, l, e) == Some(l') && Run(pool, EMPTY, events') == Some(l')
  {
    events', l' := events + [e], Next(pool, l, e).value;
    assert (events + [e])[..|events|] == events;
  }

  // ---- When a pool rejects for good ------------------------------------------------

  // Every reserve in these events asks for at least `least`.
  predicate AskFor(events: seq<Event>, least: nat)
  {
    forall e <- events :: e.Reserve? ==> e.estimated >= least
  }

  // Whatever happens next, no reserve is accepted: no reservation joins the ledger.
  ghost predicate RejectsForever(pool: Pool, l: Ledger, least: nat)
  {
    forall events: seq<Event> :: AskFor(events, least) && Run(pool, l, events).Some? ==>
      |Run(pool, l, events).value.slots| == |l.slots|
  }

  // The counter has no expiry, and giving back all that is open would not make room.
  predicate Jammed(pool: Pool, l: Ledger, least: nat)
  {
    l.counter.Held? && l.counter.expiry.None? && l.counter.value - Sum(l.slots, OpenPart) + least > pool.limit
  }

  lemma NextJammed(pool: Pool, l: Ledger, e: Event, l': Ledger, least: nat)
    requires Jammed(pool, l, least) && Next(pool, l, e) == Some(l') && (e.Reserve? ==> e.estimated >= least)
    ensures Jammed(pool, l', least) && |l'.slots| == |l.slots|
  {
    SumNonNegative(l.slots, OpenPart);
    match e {
      case Tick(elapsed) => ExpiryOwesLess(l.slots, l.now + elapsed);
      case Reserve(_, _, _) =>
      case Reconcile(key, actual) => ReconcileMoves(l, key, actual);
      case Sweep(key, at) => if l' != l { SumUpdate(l.slots, key, l'.slots[key], OpenPart); }
    }
  }

  lemma {:induction false} JammedStays(pool: Pool, l: Ledger, events: seq<Event>, least: nat)
    requires Jammed(pool, l, least) && AskFor(events, least) && Run(pool, l, events).Some?
    ensures var l' := Run(pool, l, events).value; Jammed(pool, l', least) && |l'.slots| == |l.slots|
  {
    hide Jammed, Next;
    if events != [] {
      var (init, e) := (events[..|events| - 1], events[|events| - 1]);
      assert e in events && forall x <- init :: x in events;
      JammedStays(pool, l, init, least);
      NextJammed(pool, Run(pool, l, init).value, e, Run(pool, l, events).value, least);
    }
  }

  function RefundEvents(n: nat): (events: seq<Event>)
    ensures |events| == n && forall k | 0 <= k < n :: events[k] == Reconcile(k, 0)
  {
    seq(n, (k: nat) => Reconcile(k, 0))
  }

  lemma {:induction false} RefundsRun(pool: Pool, l: Ledger, n: nat)
    ensures Run(pool, l, RefundEvents(n)) == Some(Billed(l, Refunds(n)))
  {
    if n > 0 {
      RefundsRun(pool, l, n - 1);
      assert RefundEvents(n)[..n - 1] == RefundEvents(n - 1);
      assert Refunds(n)[..n - 1] == Refunds(n - 1);
    }
  }

  // The events that make room: refund what is open, or wait for the window to end.
  function Relief(l: Ledger): seq<Event>
  {
    match l.counter
    case Absent => []
    case Held(_, None) => RefundEvents(|l.slots|)
    case Held(_, Some(expiry)) => [Tick(if expiry > l.now then expiry - l.now else 0.0)]
  }

  lemma ReliefMakesRoom(pool: Pool, l: Ledger, least: nat)
    requires least <= pool.limit && !Jammed(pool, l, least)
    ensures Run(pool, l, Relief(l)).Some?
    ensures var l' := Run(pool, l, Relief(l)).value;
            Value(l'.counter) + least <= pool.limit && |l'.slots| == |l.slots|
  {
    var n := |l.slots|;
    if l.counter.Held? && l.counter.expiry.None? {
      RefundsRun(pool, l, n);
      RefundsClose(l, n);
      NoOpenPart(Billed(l, Refunds(n)).slots);
    } else if l.counter.Held? {
      assert Relief(l)[..0] == [];
    }
  }

  // For requests that fit an empty window, a pool never accepts again exactly when its counter has no expiry and is full
  // however the open reservations end: a rejected reserve gives the counter no expiry, so no window ever ends.
  lemma RejectsForeverExactly(pool: Pool, l: Ledger, least: nat)
    requires least <= pool.limit
    ensures RejectsForever(pool, l, least) <==> Jammed(pool, l, least)
  {
    hide Jammed, Relief, Run;
    if Jammed(pool, l, least) {
      forall events: seq<Event> | AskFor(events, least) && Run(pool, l, events).Some?
        ensures |Run(pool, l, events).value.slots| == |l.slots|
      {
        JammedStays(pool, l, events, least);
      }
    } else {
      ReliefMakesRoom(pool, l, least);
      ReliefAsksNothing(l, least);
      AcceptedNext(pool, l, Relief(l), least);
    }
  }

  lemma ReliefAsksNothing(l: Ledger, least: nat)
    ensures AskFor(Relief(l), least)
  {}

  lemma AcceptedNext(pool: Pool, l: Ledger, events: seq<Event>, least: nat)
    requires AskFor(events, least) && Run(pool, l, events).Some?
    requires var l' := Run(pool, l, events).value; Value(l'.counter) + least <= pool.limit && |l'.slots| == |l.slots|
    ensures !RejectsForever(pool, l, least)
  {
    var l' := Run(pool, l, events).value;
    var all := events + [Reserve(l'.now, 0.0, least)];
    assert all[..|events|] == events;
    assert AskFor(all, least);
    assert |Run(pool, l, all).value.slots| == |l.slots| + 1;
  }

  // It happens: a run begun before the wipe overruns after it, and the pool is shut to every request from then on.
  lemma PoolCanJam(pool: Pool) returns (events: seq<Event>, l: Ledger)
    requires pool.limit >= 10 && pool.windowSeconds == 3600
    ensures Run(pool, EMPTY, events) == Some(l) && RejectsForever(pool, l, 0)
  {
    hide RejectsForever;
    events, l := [], EMPTY;
    events, l := Then(pool, events, l, Reserve(0.0, 30.0, 0));
    events, l := Then(pool, events, l, Tick(3590.0));
    events, l := Then(pool, events, l, Reserve(3590.0, 30.0, 10));
    events, l := Then(pool, events, l, Tick(10.0));
    events, l := Then(pool, events, l, Reconcile(1, 11 + pool.limit));
    assert forall i | 0 <= i < |l.slots| :: !StillOwed(l.slots[i]);
    NoOpenPart(l.slots);
    RejectsForeverExactly(pool, l, 0);
  }

  // ---- A reservation is settled once --------------------------------------------

  lemma NextSlot(pool: Pool, l: Ledger, e: Event, l': Ledger, i: nat)
    requires Next(pool, l, e) == Some(l') && i < |l.slots|
    ensures |l'.slots| >= |l.slots| && l'.now >= l.now
    ensures l'.slots[i].r == l.slots[i].r
    ensures !l.slots[i].Open? ==> l'.slots[i] == l.slots[i]
    ensures l.slots[i].Open? ==> (l'.slots[i].Open? <==> !Settles(e, i, l.slots[i].r) && !Expires(l, e, i))
    ensures l.slots[i].Open? ==> (l'.slots[i].Lost? <==> Expires(l, e, i))
  {
  }

  // The event settles reservation i if it is open.
  predicate Settles(e: Event, i: nat, r: Reservation)
  {
    (e.Reconcile? && e.key == i) || (e.Sweep? && e.key == i && e.at > r.deadline)
  }

  // The event carries the clock to the reservation's own TTL.
  predicate Expires(l: Ledger, e: Event, i: nat)
    requires i < |l.slots|
  {
    e.Tick? && l.slots[i].r.expiresAt <= l.now + e.elapsed
  }

  // Once reconciled, swept or lost a reservation never changes again: whatever settles it second does nothing.
  lemma {:induction false} SettledOnce(pool: Pool, l: Ledger, events: seq<Event>, l': Ledger, i: nat)
    requires Run(pool, l, events) == Some(l') && i < |l.slots|
    ensures |l'.slots| >= |l.slots| && l'.slots[i].r == l.slots[i].r
    ensures !l.slots[i].Open? ==> l'.slots[i] == l.slots[i]
  {
    hide Next;
    if events != [] {
      var init := events[..|events| - 1];
      var before := Run(pool, l, init).value;
      SettledOnce(pool, l, init, before, i);
      NextSlot(pool, before, events[|events| - 1], l', i);
    }
  }

  // ---- When nothing is lost to expiry ---------------------------------------------

  predicate NothingLost(l: Ledger)
  {
    forall i | 0 <= i < |l.slots| :: !l.slots[i].Lost?
  }

  // The ledger after the first n events.
  function After(pool: Pool, events: seq<Event>, n: nat): (l: Ledger)
    requires n <= |events| && Run(pool, EMPTY, events).Some?
  {
    RunPrefix(pool, events, n);
    Run(pool, EMPTY, events[..n]).value
  }

  lemma {:induction false} RunPrefix(pool: Pool, events: seq<Event>, n: nat)
    requires n <= |events| && Run(pool, EMPTY, events).Some?
    ensures Run(pool, EMPTY, events[..n]).Some?
  {
    if n < |events| {
      var init := events[..|events| - 1];
      assert init[..n] == events[..n];
      RunPrefix(pool, init, n);
    } else {
      assert events[..n] == events;
    }
  }

  lemma AfterStep(pool: Pool, events: seq<Event>, n: nat)
    requires n < |events| && Run(pool, EMPTY, events).Some?
    ensures Next(pool, After(pool, events, n), events[n]) == Some(After(pool, events, n + 1))
  {
    hide Next;
    RunPrefix(pool, events, n + 1);
    assert events[..n + 1][..n] == events[..n];
  }

  // Slots are only added, deadlines and expiries stay, and the clock only moves on.
  lemma {:induction false} AfterGrows(pool: Pool, events: seq<Event>, m: nat, n: nat)
    requires m <= n <= |events| && Run(pool, EMPTY, events).Some?
    ensures |After(pool, events, m).slots| <= |After(pool, events, n).slots|
    ensures After(pool, events, m).now <= After(pool, events, n).now
    ensures forall i | 0 <= i < |After(pool, events, m).slots| ::
              After(pool, events, n).slots[i].r == After(pool, events, m).slots[i].r
              && (!After(pool, events, m).slots[i].Open? ==> After(pool, events, n).slots[i] == After(pool, events, m).slots[i])
    decreases n - m
  {
    hide Run, After;
    if m < n {
      AfterGrows(pool, events, m, n - 1);
      AfterStep(pool, events, n - 1);
      var (mid, last) := (After(pool, events, n - 1), After(pool, events, n));
      NextMoves(pool, mid, events[n - 1], last);
      forall i | 0 <= i < |After(pool, events, m).slots|
        ensures last.slots[i].r == mid.slots[i].r && (!mid.slots[i].Open? ==> last.slots[i] == mid.slots[i])
      {
        NextSlot(pool, mid, events[n - 1], last, i);
      }
    }
  }

  lemma NextMoves(pool: Pool, l: Ledger, e: Event, l': Ledger)
    requires Next(pool, l, e) == Some(l')
    ensures |l'.slots| >= |l.slots| && l'.now >= l.now
    ensures |l'.slots| > |l.slots| ==> |l'.slots| == |l.slots| + 1 && l'.slots[|l.slots|].Open? && Graced(l, l'.slots[|l.slots|].r)
  {
  }

  // A reservation outlives both its making and its deadline by more than 59 seconds.
  predicate Graced(l: Ledger, r: Reservation)
  {
    l.now + 59.0 < r.expiresAt && r.deadline + 59.0 < r.expiresAt
  }

  // Something settled reservation i, after it was made and before event n.
  ghost predicate SettledBefore(pool: Pool, events: seq<Event>, n: nat, i: nat)
    requires n <= |events| && Run(pool, EMPTY, events).Some? && i < |After(pool, events, n).slots|
  {
    exists m :: SettledBy(pool, events, n, i, m)
  }

  ghost predicate SettledBy(pool: Pool, events: seq<Event>, n: nat, i: nat, m: int)
    requires n <= |events| && Run(pool, EMPTY, events).Some? && i < |After(pool, events, n).slots|
  {
    && 0 <= m < n && i < |After(pool, events, m).slots|
    && Settles(events[m], i, After(pool, events, n).slots[i].r)
  }

  // Before each tick that carries the clock to a reservation's TTL, a reconcile or a due sweep has settled it.
  ghost predicate SettledInTime(pool: Pool, events: seq<Event>)
    requires Run(pool, EMPTY, events).Some?
  {
    forall n, i | 0 <= n < |events| && 0 <= i < |After(pool, events, n).slots| && Expires(After(pool, events, n), events[n], i) ::
      SettledBefore(pool, events, n, i)
  }

  // A reservation is open exactly while nothing has settled it and it was not lost.
  lemma {:induction false} OpenExactly(pool: Pool, events: seq<Event>, n: nat, i: nat)
    requires n <= |events| && Run(pool, EMPTY, events).Some? && i < |After(pool, events, n).slots|
    ensures SettledBefore(pool, events, n, i) ==> !After(pool, events, n).slots[i].Open?
    ensures !After(pool, events, n).slots[i].Open? && !After(pool, events, n).slots[i].Lost? ==> SettledBefore(pool, events, n, i)
    decreases n
  {
    hide Run, After, Next, Settles, Expires;
    AfterNothing(pool, events);
    if n == 0 {
      return;
    }
    var (before, after) := (After(pool, events, n - 1), After(pool, events, n));
    AfterStep(pool, events, n - 1);
    NextMoves(pool, before, events[n - 1], after);
    if i >= |before.slots| {
      forall m ensures !SettledBy(pool, events, n, i, m) {
        if 0 <= m < n { AfterGrows(pool, events, m, n - 1); }
      }
      return;
    }
    OpenExactly(pool, events, n - 1, i);
    NextSlot(pool, before, events[n - 1], after, i);
    if m :| SettledBy(pool, events, n, i, m) {
      if m < n - 1 {
        assert SettledBy(pool, events, n - 1, i, m);
      }
    }
    if SettledBefore(pool, events, n - 1, i) {
      var m :| SettledBy(pool, events, n - 1, i, m);
      assert SettledBy(pool, events, n, i, m);
    }
    if before.slots[i].Open? && Settles(events[n - 1], i, before.slots[i].r) {
      assert SettledBy(pool, events, n, i, n - 1);
    }
  }

  lemma AfterNothing(pool: Pool, events: seq<Event>)
    requires Run(pool, EMPTY, events).Some?
    ensures After(pool, events, 0) == EMPTY
  {
    assert events[..0] == [];
  }

  // Nothing is lost to expiry exactly when every reservation whose TTL the clock reaches was settled before that.
  lemma NothingLostExactly(pool: Pool, events: seq<Event>, l: Ledger)
    requires Run(pool, EMPTY, events) == Some(l)
    ensures NothingLost(l) <==> SettledInTime(pool, events)
  {
    hide Run, After, Next, Expires;
    assert After(pool, events, |events|) == l by { AfterAll(pool, events); }
    if NothingLost(l) {
      forall n, i | 0 <= n < |events| && 0 <= i < |After(pool, events, n).slots| && Expires(After(pool, events, n), events[n], i)
        ensures SettledBefore(pool, events, n, i)
      {
        var (before, after) := (After(pool, events, n), After(pool, events, n + 1));
        AfterStep(pool, events, n);
        NextSlot(pool, before, events[n], after, i);
        AfterGrows(pool, events, n + 1, |events|);
        OpenExactly(pool, events, n, i);
      }
    }
    if SettledInTime(pool, events) {
      NothingLostYet(pool, events, |events|);
    }
  }

  lemma AfterAll(pool: Pool, events: seq<Event>)
    requires Run(pool, EMPTY, events).Some?
    ensures After(pool, events, |events|) == Run(pool, EMPTY, events).value
  {
    assert events[..|events|] == events;
  }

  lemma {:induction false} NothingLostYet(pool: Pool, events: seq<Event>, n: nat)
    requires n <= |events| && Run(pool, EMPTY, events).Some? && SettledInTime(pool, events)
    ensures NothingLost(After(pool, events, n))
    decreases n
  {
    hide Run, After, Next, Expires;
    if n == 0 {
      AfterNothing(pool, events);
    } else {
      NothingLostYet(pool, events, n - 1);
      var (before, after) := (After(pool, events, n - 1), After(pool, events, n));
      AfterStep(pool, events, n - 1);
      NextMoves(pool, before, events[n - 1], after);
      forall i | 0 <= i < |after.slots| ensures !after.slots[i].Lost? {
        if i < |before.slots| {
          NextSlot(pool, before, events[n - 1], after, i);
          OpenExactly(pool, events, n - 1, i);
        }
      }
    }
  }

  // ---- The sweep loop ------------------------------------------------------------------

  const SWEEP_INTERVAL_SECONDS: real := 30.0

  // Events `from` up to `to` hold one pass: `at` is its clock, `end` what the clock read when it was done.
  datatype Pass = Pass(from: nat, to: nat, at: real, end: real)

  // A pass sweeps every reservation that existed when it began.
  ghost predicate FullPass(pool: Pool, events: seq<Event>, p: Pass)
    requires Run(pool, EMPTY, events).Some?
  {
    && p.from <= p.to <= |events|
    && p.at == After(pool, events, p.from).now && p.end == After(pool, events, p.to).now
    && forall i | 0 <= i < |After(pool, events, p.from).slots| :: Sweeps(events, p, i)
  }

  ghost predicate Sweeps(events: seq<Event>, p: Pass, i: nat)
  {
    exists m :: SweptAt(events, p, i, m)
  }

  predicate SweptAt(events: seq<Event>, p: Pass, i: nat, m: int)
  {
    p.from <= m < p.to <= |events| && events[m] == Sweep(i, p.at)
  }

  // The loop sleeps its interval and then sweeps, each pass within `span`: so at every moment a full pass has ended no
  // longer ago than an interval and a span, once the first could.
  ghost predicate LoopRuns(pool: Pool, events: seq<Event>, passes: seq<Pass>, span: real)
    requires Run(pool, EMPTY, events).Some?
  {
    && (forall k | 0 <= k < |passes| :: FullPass(pool, events, passes[k]) && passes[k].end <= passes[k].at + span)
    && (forall n | 0 <= n <= |events| ::
          After(pool, events, n).now <= SWEEP_INTERVAL_SECONDS + span || exists k :: RecentPass(pool, events, passes, span, n, k))
  }

  ghost predicate RecentPass(pool: Pool, events: seq<Event>, passes: seq<Pass>, span: real, n: nat, k: int)
    requires Run(pool, EMPTY, events).Some? && n <= |events|
  {
    && 0 <= k < |passes| && passes[k].to <= n
    && After(pool, events, n).now <= passes[k].end + SWEEP_INTERVAL_SECONDS + span
  }

  // Where reservation i was made, the clock then, and the grace it got.
  lemma {:induction false} MadeAt(pool: Pool, events: seq<Event>, n: nat, i: nat) returns (c: nat)
    requires n <= |events| && Run(pool, EMPTY, events).Some? && i < |After(pool, events, n).slots|
    ensures c < n && |After(pool, events, c).slots| <= i < |After(pool, events, c + 1).slots|
    ensures Graced(After(pool, events, c), After(pool, events, n).slots[i].r)
    decreases n
  {
    hide Run, After, Next, Graced;
    AfterNothing(pool, events);
    var (before, after) := (After(pool, events, n - 1), After(pool, events, n));
    AfterStep(pool, events, n - 1);
    NextMoves(pool, before, events[n - 1], after);
    if i < |before.slots| {
      c := MadeAt(pool, events, n - 1, i);
      NextSlot(pool, before, events[n - 1], after, i);
    } else {
      c := n - 1;
    }
  }

  // With passes of at most 14.5 seconds, 30 apart, a full pass falls into the 59 seconds after every deadline, and
  // nothing is ever lost.
  lemma SweepLoopLosesNothing(pool: Pool, events: seq<Event>, l: Ledger, passes: seq<Pass>, span: real)
    requires Run(pool, EMPTY, events) == Some(l)
    requires 0.0 <= span && SWEEP_INTERVAL_SECONDS + 2.0 * span <= 59.0 && LoopRuns(pool, events, passes, span)
    ensures NothingLost(l) && Sum(l.slots, LostPart) == 0
  {
    hide Run, After, Next;
    forall n, i | 0 <= n < |events| && 0 <= i < |After(pool, events, n).slots| && Expires(After(pool, events, n), events[n], i)
      ensures SettledBefore(pool, events, n, i)
    {
      PassComesInTime(pool, events, passes, span, n, i);
    }
    NothingLostExactly(pool, events, l);
    NoLostPart(l.slots);
  }

  lemma PassComesInTime(pool: Pool, events: seq<Event>, passes: seq<Pass>, span: real, n: nat, i: nat)
    requires Run(pool, EMPTY, events).Some?
    requires 0.0 <= span && SWEEP_INTERVAL_SECONDS + 2.0 * span <= 59.0 && LoopRuns(pool, events, passes, span)
    requires n < |events| && i < |After(pool, events, n).slots| && Expires(After(pool, events, n), events[n], i)
    ensures SettledBefore(pool, events, n, i)
  {
    hide Run, After, Next;
    var r := After(pool, events, n).slots[i].r;
    var c := MadeAt(pool, events, n, i);
    var made := After(pool, events, c).now;
    ClockStarts(pool, events, c);
    TickReaches(pool, events, n, r.expiresAt);
    var k :| RecentPass(pool, events, passes, span, n + 1, k);
    var p := passes[k];
    assert FullPass(pool, events, p);
    assert p.at > made && p.at > r.deadline;
    if p.from <= c { AfterGrows(pool, events, p.from, c); }
    AfterGrows(pool, events, c + 1, p.from);
    assert Sweeps(events, p, i);
    var m :| SweptAt(events, p, i, m);
    AfterGrows(pool, events, p.from, m);
    assert SettledBy(pool, events, n, i, m);
  }

  lemma ClockStarts(pool: Pool, events: seq<Event>, n: nat)
    requires n <= |events| && Run(pool, EMPTY, events).Some?
    ensures After(pool, events, n).now >= 0.0
  {
    AfterNothing(pool, events);
    AfterGrows(pool, events, 0, n);
  }

  lemma TickReaches(pool: Pool, events: seq<Event>, n: nat, t: real)
    requires n < |events| && Run(pool, EMPTY, events).Some? && events[n].Tick?
    requires t <= After(pool, events, n).now + events[n].elapsed
    ensures t <= After(pool, events, n + 1).now
  {
    AfterStep(pool, events, n);
  }

  lemma {:induction false} NoLostPart(slots: seq<Slot>)
    requires forall i | 0 <= i < |slots| :: !slots[i].Lost?
    ensures Sum(slots, LostPart) == 0
  {
    if slots != [] {
      NoLostPart(slots[..|slots| - 1]);
    }
  }
}
