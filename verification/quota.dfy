/**
 The token ledger of one tenant and pool: a counter with a window TTL and
 reservations with a TTL of their own, changed only by three atomic scripts.
 Two services reconcile, one sweeps, and keys expire underneath all of them.
 */
module Quota {
  import opened Collections
  import opened Wrappers

  // The counter key: missing, or a value that expires, or one nobody gave a TTL.
  datatype Counter = Absent | Held(value: int, expiry: Option<real>)

  datatype Reservation = Reservation(estimated: nat, deadline: real, expiresAt: real)

  // What became of the reservation numbered by its place in the ledger.
  datatype Slot =
    | Open(r: Reservation)
    | Reconciled(r: Reservation, actual: nat)
    | Swept(r: Reservation)
    | Lost(r: Reservation)      // its TTL ran out first

  // `wiped` records what the window's expiry has erased from the counter so far, `overrun` the overruns
  // reconciled since it last did.
  datatype Ledger = Ledger(now: real, counter: Counter, slots: seq<Slot>, wiped: int, overrun: int)

  datatype Pool = Pool(limit: nat, windowSeconds: nat)

  const EMPTY: Ledger := Ledger(0.0, Absent, [], 0, 0)

  function Value(c: Counter): int
  {
    if c.Absent? then 0 else c.value
  }

  // INCRBY keeps whatever TTL the key has, none if it had to create it.
  function IncrBy(c: Counter, delta: int): Counter
  {
    match c
    case Absent => Held(delta, None)
    case Held(value, expiry) => Held(value + delta, expiry)
  }

  function ReservationTtl(deadlineSeconds: real): int
  {
    deadlineSeconds.Floor + 60
  }

  // The reserve script; `r` is the reservation it stores when it accepts.
  function ReserveScript(pool: Pool, l: Ledger, r: Reservation): Ledger
  {
    if Value(l.counter) + r.estimated > pool.limit then l
    else
      var c := IncrBy(l.counter, r.estimated);
      var timed := if c.expiry.None? then c.(expiry := Some(l.now + pool.windowSeconds as real)) else c;
      l.(counter := timed, slots := l.slots + [Open(r)])
  }

  // The reconcile script, the same text in the gateway and in the worker.
  function ReconcileScript(l: Ledger, key: nat, actual: nat): Ledger
  {
    if key >= |l.slots| || !l.slots[key].Open? then l
    else
      var r := l.slots[key].r;
      l.(counter := IncrBy(l.counter, actual - r.estimated), slots := l.slots[key := Reconciled(r, actual)],
         overrun := l.overrun + Max(0, actual - r.estimated))
  }

  // The sweep script for one key; `at` is when the pass began.
  function SweepScript(l: Ledger, key: nat, at: real): (res: (Ledger, bool))
  {
    if key >= |l.slots| || !l.slots[key].Open? || at <= l.slots[key].r.deadline then (l, false)
    else
      var r := l.slots[key].r;
      (l.(counter := IncrBy(l.counter, 0 - r.estimated), slots := l.slots[key := Swept(r)]), true)
  }

  function ExpireSlot(s: Slot, now: real): Slot
  {
    if s.Open? && s.r.expiresAt <= now then Lost(s.r) else s
  }

  function ExpireSlots(slots: seq<Slot>, now: real): (r: seq<Slot>)
    ensures |r| == |slots| && forall i | 0 <= i < |slots| :: r[i] == ExpireSlot(slots[i], now)
  {
    seq(|slots|, i requires 0 <= i < |slots| => ExpireSlot(slots[i], now))
  }

  // The clock moves and Redis forgets what is past its TTL.
  function TimePasses(l: Ledger, elapsed: real): Ledger
  {
    var now := l.now + elapsed;
    var over := Wipes(l, elapsed);
    Ledger(now, if over then Absent else l.counter, ExpireSlots(l.slots, now),
           if over then l.wiped + l.counter.value else l.wiped, if over then 0 else l.overrun)
  }

  // The window ends: the counter's own TTL runs out.
  predicate Wipes(l: Ledger, elapsed: real)
  {
    l.counter.Held? && l.counter.expiry.Some? && l.counter.expiry.value <= l.now + elapsed
  }

  datatype Event =
    | Tick(elapsed: real)
    | Reserve(askedAt: real, deadlineSeconds: real, estimated: nat)  // `askedAt`: the caller's clock before the script
    | Reconcile(key: nat, actual: nat)                               // by the gateway or by the worker
    | Sweep(key: nat, at: real)

  function ReservationFor(l: Ledger, askedAt: real, deadlineSeconds: real, estimated: nat): Reservation
  {
    Reservation(estimated, askedAt + deadlineSeconds, l.now + ReservationTtl(deadlineSeconds) as real)
  }

  function Next(pool: Pool, l: Ledger, e: Event): Option<Ledger>
  {
    match e
    case Tick(elapsed) => if elapsed < 0.0 then None else Some(TimePasses(l, elapsed))
    case Reserve(askedAt, deadlineSeconds, estimated) =>
      if askedAt > l.now || deadlineSeconds < 0.0 then None
      else Some(ReserveScript(pool, l, ReservationFor(l, askedAt, deadlineSeconds, estimated)))
    case Reconcile(key, actual) => Some(ReconcileScript(l, key, actual))
    case Sweep(key, at) => if at > l.now then None else Some(SweepScript(l, key, at).0)
  }

  function Run(pool: Pool, l: Ledger, events: seq<Event>): Option<Ledger>
  {
    if events == [] then Some(l)
    else
      var before := Run(pool, l, events[..|events| - 1]);
      if before.None? then None else Next(pool, before.value, events[|events| - 1])
  }

  // ---- The scripts as the managers run them ----------------------------------

  function SweepAll(l: Ledger, keys: seq<nat>, at: real): Ledger
  {
    if keys == [] then l else SweepScript(SweepAll(l, keys[..|keys| - 1], at), keys[|keys| - 1], at).0
  }

  function SweptBy(l: Ledger, keys: seq<nat>, at: real): nat
  {
    if keys == [] then 0
    else
      SweptBy(l, keys[..|keys| - 1], at) +
      if SweepScript(SweepAll(l, keys[..|keys| - 1], at), keys[|keys| - 1], at).1 then 1 else 0
  }

  // A pass settles exactly the listed reservations that were open and past their deadline.
  lemma {:induction false} PassSettles(l: Ledger, keys: seq<nat>, at: real)
    ensures var l' := SweepAll(l, keys, at);
            && l'.now == l.now && l'.wiped == l.wiped && |l'.slots| == |l.slots|
            && forall k | 0 <= k < |l.slots| ::
                 l'.slots[k] == if k in keys && l.slots[k].Open? && l.slots[k].r.deadline < at
                                then Swept(l.slots[k].r) else l.slots[k]
  {
    if keys != [] {
      var front, last := keys[..|keys| - 1], keys[|keys| - 1];
      PassSettles(l, front, at);
      assert keys == front + [last];
    }
  }

  // The listed reservations that are open and past their deadline.
  function DueAmong(l: Ledger, keys: seq<nat>, at: real): (r: set<nat>)
    ensures forall k: nat :: k in r <==> k < |l.slots| && k in keys && l.slots[k].Open? && l.slots[k].r.deadline < at
  {
    set k | 0 <= k < |l.slots| && k in keys && l.slots[k].Open? && l.slots[k].r.deadline < at
  }

  // A pass counts each of those once, however often the scan lists it.
  lemma {:induction false} SweptAreCounted(l: Ledger, keys: seq<nat>, at: real)
    ensures SweptBy(l, keys, at) == |DueAmong(l, keys, at)|
  {
    if keys != [] {
      var front, last := keys[..|keys| - 1], keys[|keys| - 1];
      SweptAreCounted(l, front, at);
      PassSettles(l, front, at);
      assert keys == front + [last];
      var due := DueAmong(l, front, at);
      if last < |l.slots| && last !in front && l.slots[last].Open? && l.slots[last].r.deadline < at {
        assert DueAmong(l, keys, at) == due + {last};
      } else {
        assert DueAmong(l, keys, at) == due;
      }
    }
  }

  class QuotaManager {
    const pool: Pool
    var ledger: Ledger

    constructor (pool: Pool)
      ensures this.pool == pool && ledger == EMPTY
    {
      this.pool, ledger := pool, EMPTY;
    }

    method Reserve(askedAt: real, deadlineSeconds: real, estimated: nat)
        returns (accepted: bool, key: nat, tokensAfter: int, limit: nat, windowTtl: real)
      requires 0.0 <= deadlineSeconds && askedAt <= ledger.now
      modifies this`ledger
      ensures Next(pool, old(ledger), Event.Reserve(askedAt, deadlineSeconds, estimated)) == Some(ledger)
      ensures accepted <==> Value(old(ledger).counter) + estimated <= pool.limit
      ensures accepted ==> key == |old(ledger).slots| && key < |ledger.slots| && ledger.slots[key].Open?
      ensures !accepted ==> ledger == old(ledger)
      ensures accepted ==>
                var expiresAt := old(ledger).now + (deadlineSeconds.Floor + 60) as real;
                ledger.slots == old(ledger).slots + [Open(Reservation(estimated, askedAt + deadlineSeconds, expiresAt))]
      ensures accepted ==> ledger.counter.Held? && ledger.counter.value == Value(old(ledger).counter) + estimated
      ensures accepted ==>
                var before := old(ledger).counter;
                var window := Some(old(ledger).now + pool.windowSeconds as real);
                ledger.counter.expiry == if before.Held? && before.expiry.Some? then before.expiry else window
      ensures tokensAfter == Value(ledger.counter) && limit == pool.limit
      ensures windowTtl == if old(ledger).counter.Held? && old(ledger).counter.expiry.Some?
                           then old(ledger).counter.expiry.value - old(ledger).now else pool.windowSeconds as real
    {
      var ttl := deadlineSeconds.Floor + 60;
      var r := Reservation(estimated, askedAt + deadlineSeconds, ledger.now + ttl as real);
      key := |ledger.slots|;
      tokensAfter := Value(ledger.counter);
      limit := pool.limit;
      windowTtl := pool.windowSeconds as real;
      if ledger.counter.Held? && ledger.counter.expiry.Some? { windowTtl := ledger.counter.expiry.value - ledger.now; }
      accepted := tokensAfter + estimated <= pool.limit;
      if accepted {
        var counter := IncrBy(ledger.counter, estimated);
        if counter.expiry.None? { counter := counter.(expiry := Some(ledger.now + pool.windowSeconds as real)); }
        ledger := ledger.(counter := counter, slots := ledger.slots + [Open(r)]);
        tokensAfter := tokensAfter + estimated;
      }
    }

    method Reconcile(key: nat, actual: nat)
      modifies this`ledger
      ensures Next(pool, old(ledger), Event.Reconcile(key, actual)) == Some(ledger)
      ensures !(key < |old(ledger).slots| && old(ledger).slots[key].Open?) ==> ledger == old(ledger)
      ensures key < |old(ledger).slots| && old(ledger).slots[key].Open? ==>
                var r := old(ledger).slots[key].r;
                && ledger.slots == old(ledger).slots[key := Reconciled(r, actual)]
                && Value(ledger.counter) == Value(old(ledger).counter) + actual - r.estimated
                && ledger.counter.Held?
                && ledger.counter.expiry == if old(ledger).counter.Held? then old(ledger).counter.expiry else None
    {
      if key < |ledger.slots| && ledger.slots[key].Open? {
        var r := ledger.slots[key].r;
        var delta := actual - r.estimated;
        ledger := ledger.(counter := IncrBy(ledger.counter, delta), slots := ledger.slots[key := Reconciled(r, actual)],
                          overrun := ledger.overrun + Max(0, delta));
      }
    }

    // The keys of one SCAN reply.
    method SweepBatch(batch: seq<nat>, now: real) returns (swept: nat)
      modifies this`ledger
      ensures ledger == SweepAll(old(ledger), batch, now) && swept == SweptBy(old(ledger), batch, now)
    {
      swept := 0;
      for i := 0 to |batch|
        invariant ledger == SweepAll(old(ledger), batch[..i], now) && swept == SweptBy(old(ledger), batch[..i], now)
      {
        var key := batch[i];
        assert batch[..i + 1][..i] == batch[..i];
        if key < |ledger.slots| && ledger.slots[key].Open? && now > ledger.slots[key].r.deadline {
          var r := ledger.slots[key].r;
          ledger := ledger.(counter := IncrBy(ledger.counter, 0 - r.estimated), slots := ledger.slots[key := Swept(r)]);
          swept := swept + 1;
        }
      }
      assert batch[..|batch|] == batch;
    }

    // sweep_once over the batches a SCAN yields; SCAN lists every key that stays present throughout.
    method SweepOnce(batches: seq<seq<nat>>) returns (swept: nat)
      modifies this`ledger
      ensures ledger == SweepAll(old(ledger), Flatten(batches), old(ledger).now)
      ensures swept == |DueAmong(old(ledger), Flatten(batches), old(ledger).now)|
      ensures (forall k | 0 <= k < |old(ledger).slots| && old(ledger).slots[k].Open? :: k in Flatten(batches)) ==>
                forall k | 0 <= k < |ledger.slots| && ledger.slots[k].Open? :: ledger.slots[k].r.deadline >= ledger.now
    {
      swept := 0;
      var now := ledger.now;
      for b := 0 to |batches|
        invariant ledger == SweepAll(old(ledger), Flatten(batches[..b]), now)
        invariant swept == SweptBy(old(ledger), Flatten(batches[..b]), now)
      {
        assert batches[..b + 1][..b] == batches[..b];
        SweepConcat(old(ledger), Flatten(batches[..b]), batches[b], now);
        var n := SweepBatch(batches[b], now);
        swept := swept + n;
      }
      assert batches[..|batches|] == batches;
      PassSettles(old(ledger), Flatten(batches), now);
      SweptAreCounted(old(ledger), Flatten(batches), now);
    }
  }

  lemma {:induction false} SweepConcat(l: Ledger, a: seq<nat>, b: seq<nat>, at: real)
    ensures SweepAll(l, a + b, at) == SweepAll(SweepAll(l, a, at), b, at)
    ensures SweptBy(l, a + b, at) == SweptBy(l, a, at) + SweptBy(SweepAll(l, a, at), b, at)
  {
    if b == [] {
      assert a + b == a;
    } else {
      var n := |b| - 1;
      assert (a + b)[..|a + b| - 1] == a + b[..n];
      SweepConcat(l, a, b[..n], at);
    }
  }

  function Flatten(batches: seq<seq<nat>>): seq<nat>
  {
    if batches == [] then [] else Flatten(batches[..|batches| - 1]) + batches[|batches| - 1]
  }
}
