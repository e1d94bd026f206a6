/** Two-level queue byte budgets (udp.rs): every reservation is taken from its association's
    counter and then from the global counter, and dropped in the same order, each by one atomic
    instruction. Any number of associations and reservations interleave freely. */
module QueueBudget {
  import opened Base

  /** One reservation, by the atomic instructions it has executed. */
  datatype Slot =
    | Idle
    | AssociationHeld(a: nat, bytes: nat)   // first counter taken, global not tried yet
    | Refused(a: nat, bytes: nat)           // global refused, association not given back yet
    | Live(a: nat, bytes: nat)
    | HalfReleased(a: nat, bytes: nat)      // association given back, global not yet

  datatype Budgets = Budgets(
    queued: nat,             // the global counter
    limit: nat,
    counters: seq<nat>,      // one per association
    limits: seq<nat>,
    slots: seq<Slot>)

  datatype Event =
    | OpenAssociation(limit: nat)
    | NewReservation
    | ReserveAssociation(s: nat, a: nat, bytes: nat)
    | ReserveGlobal(s: nat)
    | RollBack(s: nat)
    | ReleaseAssociation(s: nat)
    | ReleaseGlobal(s: nat)

  /** `fetch_update` with `checked_add` and the limit filter. */
  predicate Fits(counter: nat, limit: nat, bytes: nat) { counter + bytes <= U64_MAX && counter + bytes <= limit }

  /** `fetch_sub` wraps on underflow. */
  function FetchSub(counter: nat, bytes: nat): nat {
    if bytes <= counter then counter - bytes else Monus(counter + U64_MAX + 1, bytes)
  }

  /** The step is a subtraction that takes more than its counter holds. */
  predicate Underflows(b: Budgets, e: Event) {
    && (e.RollBack? || e.ReleaseAssociation? || e.ReleaseGlobal?) && e.s < |b.slots|
    && var x := b.slots[e.s];
       if e.ReleaseGlobal? then x.HalfReleased? && x.bytes > b.queued
       else (if e.RollBack? then x.Refused? else x.Live?) && x.a < |b.counters| && x.bytes > b.counters[x.a]
  }

  function GiveBack(b: Budgets, a: nat, bytes: nat): Budgets
    requires a < |b.counters|
  {
    b.(counters := b.counters[a := FetchSub(b.counters[a], bytes)])
  }

  function Step(b: Budgets, e: Event): Budgets {
    match e
    case OpenAssociation(limit) => b.(counters := b.counters + [0], limits := b.limits + [limit])
    case NewReservation => b.(slots := b.slots + [Idle])
    case _ => if e.s < |b.slots| then SlotStep(b, e) else b
  }

  function SlotStep(b: Budgets, e: Event): Budgets
    requires !e.OpenAssociation? && !e.NewReservation? && e.s < |b.slots|
  {
    var x := b.slots[e.s];
    match e
    case ReserveAssociation(s, a, bytes) =>
      if x.Idle? && a < |b.counters| && a < |b.limits| && Fits(b.counters[a], b.limits[a], bytes)
      then b.(counters := b.counters[a := b.counters[a] + bytes], slots := b.slots[s := AssociationHeld(a, bytes)])
      else b
    case ReserveGlobal(s) =>
      if !x.AssociationHeld? then b
      else if Fits(b.queued, b.limit, x.bytes)
      then b.(queued := b.queued + x.bytes, slots := b.slots[s := Live(x.a, x.bytes)])
      else b.(slots := b.slots[s := Refused(x.a, x.bytes)])
    case RollBack(s) =>
      if x.Refused? && x.a < |b.counters| then GiveBack(b, x.a, x.bytes).(slots := b.slots[s := Idle]) else b
    case ReleaseAssociation(s) =>
      if x.Live? && x.a < |b.counters|
      then GiveBack(b, x.a, x.bytes).(slots := b.slots[s := HalfReleased(x.a, x.bytes)]) else b
    case ReleaseGlobal(s) =>
      if !x.HalfReleased? then b
      else b.(queued := FetchSub(b.queued, x.bytes), slots := b.slots[s := Idle])
  }

  function Run(b: Budgets, es: seq<Event>): Budgets {
    if es == [] then b else Step(Run(b, es[..|es| - 1]), es[|es| - 1])
  }

  function Empty(limit: nat): Budgets { Budgets(0, limit, [], [], []) }

  // -------------------------------------------------------------- exact accounts

  /** What a reservation counts for on its association, and on the global counter. */
  function OnAssociation(x: Slot, a: nat): nat {
    if (x.AssociationHeld? || x.Refused? || x.Live?) && x.a == a then x.bytes else 0
  }

  function OnGlobal(x: Slot): nat { if x.Live? || x.HalfReleased? then x.bytes else 0 }

  function AssociationSum(xs: seq<Slot>, a: nat): nat {
    if xs == [] then 0 else AssociationSum(xs[..|xs| - 1], a) + OnAssociation(xs[|xs| - 1], a)
  }

  function GlobalSum(xs: seq<Slot>): nat {
    if xs == [] then 0 else GlobalSum(xs[..|xs| - 1]) + OnGlobal(xs[|xs| - 1])
  }

  lemma {:induction false} SumsAfterUpdate(xs: seq<Slot>, s: nat, x: Slot, a: nat)
    requires s < |xs|
    ensures AssociationSum(xs[s := x], a) == AssociationSum(xs, a) - OnAssociation(xs[s], a) + OnAssociation(x, a)
    ensures GlobalSum(xs[s := x]) == GlobalSum(xs) - OnGlobal(xs[s]) + OnGlobal(x)
    ensures OnAssociation(xs[s], a) <= AssociationSum(xs, a) && OnGlobal(xs[s]) <= GlobalSum(xs)
    decreases |xs|
  {
    var n := |xs| - 1;
    if s == n {
      assert xs[s := x][..n] == xs[..n];
    } else {
      assert xs[s := x][..n] == xs[..n][s := x];
      SumsAfterUpdate(xs[..n], s, x, a);
    }
  }

  lemma SumsAfterAppend(xs: seq<Slot>, a: nat)
    ensures AssociationSum(xs + [Idle], a) == AssociationSum(xs, a) && GlobalSum(xs + [Idle]) == GlobalSum(xs)
  {
    assert (xs + [Idle])[..|xs|] == xs;
  }

  ghost predicate AccountOk(b: Budgets, a: nat)
    requires a < |b.counters| && |b.limits| == |b.counters|
  {
    b.counters[a] == AssociationSum(b.slots, a) && b.counters[a] <= b.limits[a]
  }

  ghost predicate Inv(b: Budgets) {
    && |b.limits| == |b.counters|
    && b.queued == GlobalSum(b.slots) && b.queued <= b.limit
    && (forall a :: 0 <= a < |b.counters| ==> AccountOk(b, a))
    && (forall s :: 0 <= s < |b.slots| ==> !b.slots[s].Idle? ==> b.slots[s].a < |b.counters|)
  }

  lemma NobodyUnknown(xs: seq<Slot>, a: nat)
    requires forall s :: 0 <= s < |xs| ==> !xs[s].Idle? ==> xs[s].a < a
    ensures AssociationSum(xs, a) == 0
  {
    if xs != [] {
      NobodyUnknown(xs[..|xs| - 1], a);
    }
  }

  lemma SlotStepKeepsAccount(b: Budgets, e: Event, a: nat)
    requires Inv(b) && !e.OpenAssociation? && !e.NewReservation? && e.s < |b.slots| && a < |b.counters|
    ensures var b' := SlotStep(b, e);
            |b'.counters| == |b.counters| && |b'.limits| == |b.limits| && AccountOk(b', a)
  {
    var b' := SlotStep(b, e);
    assert AccountOk(b, a);
    SumsAfterUpdate(b.slots, e.s, b'.slots[e.s], a);
    var x := b.slots[e.s];
    if !x.Idle? {
      assert AccountOk(b, x.a);
      SumsAfterUpdate(b.slots, e.s, b'.slots[e.s], x.a);
    }
  }

  lemma SlotStepKeepsGlobal(b: Budgets, e: Event)
    requires Inv(b) && !e.OpenAssociation? && !e.NewReservation? && e.s < |b.slots|
    ensures var b' := SlotStep(b, e); b'.queued == GlobalSum(b'.slots) && b'.queued <= b'.limit
    ensures !Underflows(b, e)
  {
    var b' := SlotStep(b, e);
    var x := b.slots[e.s];
    SumsAfterUpdate(b.slots, e.s, b'.slots[e.s], if x.Idle? then 0 else x.a);
    if !x.Idle? {
      assert AccountOk(b, x.a);
    }
  }

  lemma StepKeepsInv(b: Budgets, e: Event)
    requires Inv(b)
    ensures Inv(Step(b, e)) && !Underflows(b, e)
  {
    var b' := Step(b, e);
    if e.OpenAssociation? {
      NobodyUnknown(b.slots, |b.counters|);
      forall a | 0 <= a < |b'.counters| ensures AccountOk(b', a) {
        if a < |b.counters| { assert AccountOk(b, a); }
      }
    } else if e.NewReservation? {
      SumsAfterAppend(b.slots, 0);
      forall a | 0 <= a < |b'.counters| ensures AccountOk(b', a) {
        assert AccountOk(b, a);
        SumsAfterAppend(b.slots, a);
      }
    } else if e.s < |b.slots| {
      SlotStepKeepsGlobal(b, e);
      ShapeOfSlotStep(b, e);
      forall a | 0 <= a < |b'.counters| ensures AccountOk(b', a) { SlotStepKeepsAccount(b, e, a); }
      forall s | 0 <= s < |b'.slots| && !b'.slots[s].Idle? ensures b'.slots[s].a < |b'.counters| {
        assert b'.slots[s] == if s == e.s then b'.slots[e.s] else b.slots[s];
      }
    }
  }

  lemma ShapeOfSlotStep(b: Budgets, e: Event)
    requires Inv(b) && !e.OpenAssociation? && !e.NewReservation? && e.s < |b.slots|
    ensures var b' := SlotStep(b, e);
            && |b'.counters| == |b.counters| && b'.limits == b.limits
            && |b'.slots| == |b.slots| && b'.slots == b.slots[e.s := b'.slots[e.s]]
            && (!b'.slots[e.s].Idle? ==> b'.slots[e.s].a < |b.counters|)
  {
  }

  /** Under any interleaving, every counter equals the sum of the live reservations plus the
      half-done reserves and releases that count on it, stays within its limit, and no
      subtraction ever underflows. */
  lemma {:induction false} CountersAreExact(limit: nat, es: seq<Event>, next: Event)
    ensures Inv(Run(Empty(limit), es)) && !Underflows(Run(Empty(limit), es), next)
  {
    if es != [] {
      var e := es[|es| - 1];
      CountersAreExact(limit, es[..|es| - 1], e);
      StepKeepsInv(Run(Empty(limit), es[..|es| - 1]), e);
    }
    StepKeepsInv(Run(Empty(limit), es), next);
  }

  lemma {:induction false} IdleSlotsSumToZero(xs: seq<Slot>, a: nat)
    requires forall s :: 0 <= s < |xs| ==> xs[s].Idle?
    ensures AssociationSum(xs, a) == 0 && GlobalSum(xs) == 0
  {
    if xs != [] {
      IdleSlotsSumToZero(xs[..|xs| - 1], a);
    }
  }

  /** Once every reservation has been dropped, all counters are back at zero. */
  lemma DroppedReservationsLeaveNothing(limit: nat, es: seq<Event>)
    requires forall s :: 0 <= s < |Run(Empty(limit), es).slots| ==> Run(Empty(limit), es).slots[s].Idle?
    ensures Run(Empty(limit), es).queued == 0
    ensures forall a :: 0 <= a < |Run(Empty(limit), es).counters| ==> Run(Empty(limit), es).counters[a] == 0
  {
    var b := Run(Empty(limit), es);
    CountersAreExact(limit, es, NewReservation);
    IdleSlotsSumToZero(b.slots, 0);
    forall a | 0 <= a < |b.counters| ensures b.counters[a] == 0 {
      assert AccountOk(b, a);
      IdleSlotsSumToZero(b.slots, a);
    }
  }

  /** A reservation is admitted exactly when it fits beside everything that counts on its association
      and beside everything that counts globally; refused globally, it leaves no trace. */
  lemma ReservationIsAdmittedIff(limit: nat, es: seq<Event>, s: nat, a: nat, bytes: nat)
    ensures var b := Run(Empty(limit), es);
            s < |b.slots| && b.slots[s].Idle? && a < |b.counters| && |b.limits| == |b.counters| ==>
              var b1 := Step(b, ReserveAssociation(s, a, bytes));
              var b2 := Step(b1, ReserveGlobal(s));
              var onAssociation := AssociationSum(b.slots, a) + bytes <= Min(b.limits[a], U64_MAX);
              var onGlobal := GlobalSum(b.slots) + bytes <= Min(b.limit, U64_MAX);
              && |b2.slots| == |b.slots|
              && (b2.slots[s] == Live(a, bytes) <==> onAssociation && onGlobal)
              && (!onAssociation ==> b2 == b)
              && (onAssociation && !onGlobal ==> Step(b2, RollBack(s)) == b)
  {
    hide Run;
    CountersAreExact(limit, es, NewReservation);
    var b := Run(Empty(limit), es);
    if s < |b.slots| && b.slots[s].Idle? && a < |b.counters| {
      assert AccountOk(b, a);
      var b2 := Step(Step(b, ReserveAssociation(s, a, bytes)), ReserveGlobal(s));
      if b2.slots[s].Refused? {
        var b3 := Step(b2, RollBack(s));
        assert b3.counters == b.counters && b3.slots == b.slots;
      }
    }
  }

  /** Dropping a live reservation gives its bytes back to both counters, and to no other. */
  lemma ReleaseGivesBack(limit: nat, es: seq<Event>, s: nat)
    ensures var b := Run(Empty(limit), es);
            s < |b.slots| && b.slots[s].Live? ==>
              var x := b.slots[s];
              var b2 := Step(Step(b, ReleaseAssociation(s)), ReleaseGlobal(s));
              && x.a < |b.counters| && x.bytes <= b.counters[x.a] && x.bytes <= b.queued
              && b2 == b.(slots := b.slots[s := Idle], queued := b.queued - x.bytes,
                          counters := b.counters[x.a := b.counters[x.a] - x.bytes])
  {
    hide Run;
    CountersAreExact(limit, es, NewReservation);
    var b := Run(Empty(limit), es);
    if s < |b.slots| && b.slots[s].Live? {
      var x := b.slots[s];
      assert AccountOk(b, x.a);
      SumsAfterUpdate(b.slots, s, Idle, x.a);
      var b2 := Step(Step(b, ReleaseAssociation(s)), ReleaseGlobal(s));
      assert b2.slots == b.slots[s := Idle];
    }
  }

  // -------------------------------------------------------- the source's functions

  class Counter {
    var value: nat
    const limit: nat

    constructor (limit: nat)
      ensures this.limit == limit && value == 0
    {
      this.limit, value := limit, 0;
    }

    /** `try_reserve`: all or nothing. */
    method TryReserve(bytes: nat) returns (ok: bool)
      modifies this
      ensures ok == Fits(old(value), limit, bytes)
      ensures value == if ok then old(value) + bytes else old(value)
    {
      ok := value + bytes <= U64_MAX && value + bytes <= limit;
      if ok { value := value + bytes; }
    }
  }

  /** `QueueBudget::reserve` without interference: both counters move by `bytes`, or neither. */
  method Reserve(association: Counter, global: Counter, bytes: nat) returns (ok: bool)
    requires association != global
    modifies association, global
    ensures ok == (Fits(old(association.value), association.limit, bytes) && Fits(old(global.value), global.limit, bytes))
    ensures association.value == old(association.value) + (if ok then bytes else 0)
    ensures global.value == old(global.value) + (if ok then bytes else 0)
  {
    ok := association.TryReserve(bytes);
    if !ok { return; }
    ok := global.TryReserve(bytes);
    if !ok {
      association.value := association.value - bytes;
    }
  }
}
