/** The relay gate with its leases (socks.rs) and the eligibility controller that drives it
    (runtime.rs). Each controller method runs under one mutex, so a call is one step. The
    control epoch wraps at 64 bits and the gate generation saturates there, as in the source. */
module RelayGate {
  import opened Base

  // ------------------------------------------------------------------ the gate

  datatype Gate = Gate(enabled: bool, awaiting: bool, generation: nat)

  datatype GateCall = SetEnabled(on: bool) | WaitForActivation | Invalidate

  function Bump(g: Gate, enabled: bool, awaiting: bool): Gate {
    Gate(enabled, awaiting, Min(g.generation + 1, U64_MAX))
  }

  function GateStep(g: Gate, c: GateCall): Gate {
    match c
    case SetEnabled(on) => if g.enabled == on && !g.awaiting then g else Bump(g, on, false)
    case WaitForActivation => if g.enabled || g.awaiting then g else Bump(g, false, true)
    case Invalidate => if !g.enabled && g.awaiting then g else Bump(g, false, true)
  }

  function GateRun(g: Gate, cs: seq<GateCall>): (r: seq<Gate>)
    ensures |r| == |cs| + 1 && r[0] == g
    ensures forall i :: 0 <= i < |cs| ==> r[i + 1] == GateStep(r[i], cs[i])
    decreases |cs|
  {
    if cs == [] then [g] else [g] + GateRun(GateStep(g, cs[0]), cs[1..])
  }

  /** `wait_for_invalidation` keeps waiting exactly while this holds of what it last saw. */
  predicate LeaseValid(g: Gate, lease: nat) { g.enabled && g.generation == lease }

  ghost predicate GateOk(g: Gate) { !(g.enabled && g.awaiting) && g.generation <= U64_MAX }

  /** One step away from a valid lease: it survives exactly when the gate stays enabled. */
  lemma LeaseStep(g: Gate, lease: nat, c: GateCall)
    requires GateOk(g)
    ensures GateOk(GateStep(g, c)) && g.generation <= GateStep(g, c).generation
    ensures LeaseValid(g, lease) && lease < U64_MAX ==>
              if GateStep(g, c).enabled then LeaseValid(GateStep(g, c), lease) else GateStep(g, c).generation > lease
  {
  }

  /** A lease taken below the 64-bit ceiling is valid at a later state exactly when the gate was
      enabled at every state in between. A watcher that only ever sees the latest coalesced
      state therefore cannot miss a disable that was followed by an enable. */
  lemma {:induction false} LeaseIsValidIffNeverDisabled(g: Gate, cs: seq<GateCall>)
    requires GateOk(g) && g.enabled && g.generation < U64_MAX
    ensures LeaseValid(GateRun(g, cs)[|cs|], g.generation)
            <==> forall i :: 0 <= i <= |cs| ==> GateRun(g, cs)[i].enabled
  {
    var r, lease := GateRun(g, cs), g.generation;
    for i := 0 to |cs|
      invariant GateOk(r[i]) && lease <= r[i].generation
      invariant (forall j :: 0 <= j <= i ==> r[j].enabled) ==> LeaseValid(r[i], lease)
      invariant !(forall j :: 0 <= j <= i ==> r[j].enabled) ==> r[i].generation > lease
    {
      assert r[i + 1] == GateStep(r[i], cs[i]);
      LeaseStep(r[i], lease, cs[i]);
    }
  }

  /** At the ceiling a lease says no more than that the gate is enabled now. */
  lemma {:induction false} LeaseAtTheCeilingMeansEnabled(g: Gate, cs: seq<GateCall>)
    requires GateOk(g) && g.enabled && g.generation == U64_MAX
    ensures LeaseValid(GateRun(g, cs)[|cs|], g.generation) <==> GateRun(g, cs)[|cs|].enabled
  {
    var r := GateRun(g, cs);
    for i := 0 to |cs|
      invariant GateOk(r[i]) && r[i].generation == U64_MAX
    {
      assert r[i + 1] == GateStep(r[i], cs[i]);
      LeaseStep(r[i], U64_MAX, cs[i]);
    }
  }

  /** At the ceiling the generation no longer moves and the same lease survives a disable
      followed by an enable, so the bound above is exact. */
  lemma LeaseAtTheCeilingIsBlind()
    ensures exists g: Gate, cs: seq<GateCall> ::
              && GateOk(g) && g.enabled && g.generation == U64_MAX
              && LeaseValid(GateRun(g, cs)[|cs|], g.generation)
              && !(forall i :: 0 <= i <= |cs| ==> GateRun(g, cs)[i].enabled)
  {
    var g, cs := Gate(true, false, U64_MAX), [SetEnabled(false), SetEnabled(true)];
    var r := GateRun(g, cs);
    assert r[1] == GateStep(g, cs[0]) && r[2] == GateStep(r[1], cs[1]);
    assert !r[1].enabled && LeaseValid(r[2], U64_MAX);
  }

  /** The generation moves exactly when the gate changes, so that a watcher of generations sees every
      change: below the ceiling by one, never otherwise. */
  lemma EveryChangeMovesTheGeneration(g: Gate, c: GateCall)
    requires GateOk(g) && g.generation < U64_MAX
    ensures var h := GateStep(g, c);
            if h.enabled == g.enabled && h.awaiting == g.awaiting then h == g else h.generation == g.generation + 1
  {
  }

  // ------------------------------------------------------------ the controller

  const EPOCHS: nat := U64_MAX + 1

  datatype Controller = Controller(
    gate: Gate,
    carrierHealthy: bool,
    authenticated: bool,
    lossPending: bool,
    suspended: bool,
    epoch: nat)

  datatype Call =
    | ControlConnected
    | ScreenSuspended
    | ScreenSuspendedIfEpoch(at: nat)
    | AuthenticatedWake
    | ControlDegraded
    | ControlInactiveIfEpoch(at: nat)
    | ControlInactive
    | ControlInactiveAwaitingRecovery
    | CarrierLost
    | CarrierLostAwaitingRecovery
    | CarrierHealthy

  const START := Controller(GateStep(Gate(false, false, 0), WaitForActivation), true, false, false, false, 0)

  /** `wrapping_add` on 64 bits. */
  function Wrap(n: nat): nat { if n < EPOCHS then n else n - EPOCHS }

  function NextEpoch(c: Controller): Controller { c.(epoch := Wrap(c.epoch + 1), lossPending := false) }

  function WithGate(c: Controller, call: GateCall): Controller { c.(gate := GateStep(c.gate, call)) }

  /** Whether a sleep probe or a grace expiry that carries `at` finds the state it was armed on. */
  predicate ProbeActs(c: Controller, at: nat) { c.epoch == at && c.authenticated }

  function Step(c: Controller, call: Call): Controller {
    match call
    case ControlConnected =>
      var c' := NextEpoch(c).(authenticated := true, suspended := false);
      WithGate(c', if c.carrierHealthy then SetEnabled(true) else WaitForActivation)
    case ScreenSuspended =>
      WithGate(NextEpoch(c).(authenticated := false, suspended := true), Invalidate)
    case ScreenSuspendedIfEpoch(at) =>
      if !ProbeActs(c, at) then c
      else WithGate(NextEpoch(c).(authenticated := false, suspended := true), Invalidate)
    case AuthenticatedWake => WithGate(NextEpoch(c).(suspended := false), WaitForActivation)
    case ControlDegraded =>
      if !c.authenticated || c.lossPending || c.suspended then c else NextEpoch(c).(lossPending := true)
    case ControlInactiveIfEpoch(at) =>
      if !ProbeActs(c, at) || c.suspended then c
      else WithGate(NextEpoch(c).(authenticated := false), SetEnabled(false))
    case ControlInactive =>
      WithGate(NextEpoch(c).(authenticated := false, suspended := false), SetEnabled(false))
    case ControlInactiveAwaitingRecovery =>
      WithGate(NextEpoch(c).(authenticated := false, suspended := false), Invalidate)
    case CarrierLost =>
      WithGate(NextEpoch(c).(carrierHealthy := false, authenticated := false, suspended := false), SetEnabled(false))
    case CarrierLostAwaitingRecovery =>
      WithGate(NextEpoch(c).(carrierHealthy := false, authenticated := false, suspended := false), Invalidate)
    case CarrierHealthy =>
      var c' := c.(carrierHealthy := true);
      if c.suspended then c'
      else WithGate(c', if c.authenticated then SetEnabled(true) else WaitForActivation)
  }

  function Run(c: Controller, calls: seq<Call>): (r: seq<Controller>)
    ensures |r| == |calls| + 1 && r[0] == c
    ensures forall i :: 0 <= i < |calls| ==> r[i + 1] == Step(r[i], calls[i])
    decreases |calls|
  {
    if calls == [] then [c] else [c] + Run(Step(c, calls[0]), calls[1..])
  }

  ghost predicate Inv(c: Controller) {
    && (c.gate.enabled <==> c.carrierHealthy && c.authenticated)
    && !(c.suspended && c.authenticated)
    && (c.lossPending ==> c.authenticated)
    && GateOk(c.gate)
    && c.epoch < EPOCHS
  }

  lemma StepKeepsInv(c: Controller, call: Call)
    requires Inv(c)
    ensures Inv(Step(c, call))
  {
  }

  lemma {:induction false} RunKeepsInv(c: Controller, calls: seq<Call>)
    requires Inv(c)
    ensures forall i :: 0 <= i <= |calls| ==> Inv(Run(c, calls)[i])
  {
    var r := Run(c, calls);
    for i := 0 to |calls|
      invariant forall j :: 0 <= j <= i ==> Inv(r[j])
    {
      assert r[i + 1] == Step(r[i], calls[i]);
      StepKeepsInv(r[i], calls[i]);
    }
  }

  /** After any sequence of controller calls the gate is enabled exactly when the carrier is
      healthy and control is authenticated; suspension excludes authentication, a pending
      loss needs it, and an enabled gate is never awaiting activation. */
  lemma GateFollowsEligibility(calls: seq<Call>)
    ensures var c := Run(START, calls)[|calls|];
            && (c.gate.enabled <==> c.carrierHealthy && c.authenticated)
            && !(c.suspended && c.authenticated) && (c.lossPending ==> c.authenticated)
            && !(c.gate.enabled && c.gate.awaiting)
  {
    RunKeepsInv(START, calls);
    assert Inv(Run(START, calls)[|calls|]);
  }

  /** A controller call that is a control event moves the epoch; the others leave it alone. */
  predicate IsControlEvent(c: Controller, call: Call) {
    match call
    case CarrierHealthy => false
    case ControlDegraded => c.authenticated && !c.lossPending && !c.suspended
    case ScreenSuspendedIfEpoch(at) => ProbeActs(c, at)
    case ControlInactiveIfEpoch(at) => ProbeActs(c, at) && !c.suspended
    case _ => true
  }

  function ControlEvents(c: Controller, calls: seq<Call>): nat
    decreases |calls|
  {
    if calls == [] then 0
    else (if IsControlEvent(c, calls[0]) then 1 else 0) + ControlEvents(Step(c, calls[0]), calls[1..])
  }

  lemma {:induction false} EpochCountsControlEvents(c: Controller, calls: seq<Call>)
    requires c.epoch < EPOCHS && ControlEvents(c, calls) < EPOCHS
    ensures Run(c, calls)[|calls|].epoch == Wrap(c.epoch + ControlEvents(c, calls))
    decreases |calls|
  {
    if calls != [] {
      var c' := Step(c, calls[0]);
      EpochMoves(c, calls[0]);
      EpochCountsControlEvents(c', calls[1..]);
      assert Run(c, calls) == [c] + Run(c', calls[1..]);
    }
  }

  lemma EpochMoves(c: Controller, call: Call)
    ensures Step(c, call).epoch == if IsControlEvent(c, call) then Wrap(c.epoch + 1) else c.epoch
  {
  }

  /** Calls of a loss or sleep probe that carry an epoch from before the latest control event
      change nothing, as long as fewer than 2^64 control events passed in between. */
  lemma StaleProbesChangeNothing(c: Controller, calls: seq<Call>)
    requires Inv(c) && 0 < ControlEvents(c, calls) < EPOCHS
    ensures var d := Run(c, calls)[|calls|];
            Step(d, ControlInactiveIfEpoch(c.epoch)) == d && Step(d, ScreenSuspendedIfEpoch(c.epoch)) == d
  {
    EpochCountsControlEvents(c, calls);
  }

  /** The grace timer armed by a degradation closes the gate exactly when no control event
      followed it: then control goes inactive, otherwise nothing changes. */
  lemma {:induction false} GraceExpiryActsIffNothingHappened(c: Controller, calls: seq<Call>)
    requires Inv(c) && IsControlEvent(c, ControlDegraded)
    requires ControlEvents(Step(c, ControlDegraded), calls) < EPOCHS
    ensures var armed := Step(c, ControlDegraded);
            var d := Run(armed, calls)[|calls|];
            var expired := Step(d, ControlInactiveIfEpoch(armed.epoch));
            if ControlEvents(armed, calls) == 0 then !expired.authenticated && !expired.gate.enabled else expired == d
  {
    var armed := Step(c, ControlDegraded);
    StepKeepsInv(c, ControlDegraded);
    if ControlEvents(armed, calls) == 0 {
      NoControlEventKeepsPending(armed, calls);
      RunKeepsInv(armed, calls);
      var d := Run(armed, calls)[|calls|];
      assert Inv(d);
      StepKeepsInv(d, ControlInactiveIfEpoch(armed.epoch));
    } else {
      StaleProbesChangeNothing(armed, calls);
    }
  }

  lemma {:induction false} NoControlEventKeepsPending(c: Controller, calls: seq<Call>)
    requires ControlEvents(c, calls) == 0 && c.lossPending && c.authenticated && !c.suspended
    ensures var d := Run(c, calls)[|calls|]; d.epoch == c.epoch && d.authenticated && !d.suspended
    decreases |calls|
  {
    if calls != [] {
      NoControlEventKeepsPending(Step(c, calls[0]), calls[1..]);
      assert Run(c, calls) == [c] + Run(Step(c, calls[0]), calls[1..]);
    }
  }

  /** A controller call moves the gate by at most one gate call. */
  lemma StepMovesTheGateOnce(c: Controller, call: Call) returns (g: GateCall)
    requires Inv(c)
    ensures Step(c, call).gate == c.gate || Step(c, call).gate == GateStep(c.gate, g)
  {
    g := match call
      case ControlConnected => if c.carrierHealthy then SetEnabled(true) else WaitForActivation
      case AuthenticatedWake => WaitForActivation
      case CarrierHealthy => if c.authenticated then SetEnabled(true) else WaitForActivation
      case ControlInactiveIfEpoch(_) | ControlInactive | CarrierLost => SetEnabled(false)
      case _ => Invalidate;
  }

  /** No old flow leaks through: a relay flow admitted at some state still holds a valid lease
      later exactly when the carrier stayed healthy and control stayed authenticated at every
      state in between, however the controller was driven. */
  lemma {:induction false} FlowSurvivesIffAlwaysEligible(c: Controller, calls: seq<Call>)
    requires Inv(c) && c.gate.enabled && c.gate.generation < U64_MAX
    ensures LeaseValid(Run(c, calls)[|calls|].gate, c.gate.generation)
            <==> forall i :: 0 <= i <= |calls| ==> Run(c, calls)[i].carrierHealthy && Run(c, calls)[i].authenticated
  {
    var r, lease := Run(c, calls), c.gate.generation;
    RunKeepsInv(c, calls);
    for i := 0 to |calls|
      invariant lease <= r[i].gate.generation
      invariant (forall j :: 0 <= j <= i ==> r[j].carrierHealthy && r[j].authenticated) ==> LeaseValid(r[i].gate, lease)
      invariant !(forall j :: 0 <= j <= i ==> r[j].carrierHealthy && r[j].authenticated) ==> r[i].gate.generation > lease
    {
      assert r[i + 1] == Step(r[i], calls[i]) && Inv(r[i]) && Inv(r[i + 1]);
      var g := StepMovesTheGateOnce(r[i], calls[i]);
      LeaseStep(r[i].gate, lease, g);
    }
  }

  // ------------------------------------------------ the gate as a history of calls

  /** The call takes authentication away: a suspension, an inactivity or a carrier loss that acts. */
  predicate Drops(c: Controller, call: Call) {
    match call
    case ScreenSuspended | ControlInactive | ControlInactiveAwaitingRecovery | CarrierLost | CarrierLostAwaitingRecovery => true
    case ScreenSuspendedIfEpoch(at) => ProbeActs(c, at)
    case ControlInactiveIfEpoch(at) => ProbeActs(c, at) && !c.suspended
    case _ => false
  }

  predicate LosesCarrier(call: Call) { call.CarrierLost? || call.CarrierLostAwaitingRecovery? }

  predicate Suspends(c: Controller, call: Call) {
    call.ScreenSuspended? || (call.ScreenSuspendedIfEpoch? && ProbeActs(c, call.at))
  }

  predicate EndsSuspension(call: Call) {
    call.ControlConnected? || call.AuthenticatedWake? || call.ControlInactive? || call.ControlInactiveAwaitingRecovery?
    || LosesCarrier(call)
  }

  /** The call turns new connections away for good rather than letting them wait. */
  predicate Shuts(c: Controller, call: Call) {
    call.ControlInactive? || call.CarrierLost? || (call.ControlInactiveIfEpoch? && ProbeActs(c, call.at) && !c.suspended)
  }

  predicate Reopens(c: Controller, call: Call) {
    call.ControlConnected? || call.AuthenticatedWake? || call.CarrierHealthy? || Suspends(c, call)
    || call.ControlInactiveAwaitingRecovery? || call.CarrierLostAwaitingRecovery?
  }

  /** Control connected at some point and nothing since has taken that away. */
  ghost predicate StillConnected(r: seq<Controller>, calls: seq<Call>, n: nat)
    requires n <= |calls| < |r|
  {
    exists i :: 0 <= i < n && calls[i].ControlConnected? && forall j :: i < j < n ==> !Drops(r[j], calls[j])
  }

  /** Every loss of the carrier has been followed by its return. */
  ghost predicate CarrierBack(calls: seq<Call>, n: nat)
    requires n <= |calls|
  {
    forall i :: 0 <= i < n && LosesCarrier(calls[i]) ==> exists j :: i < j < n && calls[j].CarrierHealthy?
  }

  ghost predicate StillSuspended(r: seq<Controller>, calls: seq<Call>, n: nat)
    requires n <= |calls| < |r|
  {
    exists i :: 0 <= i < n && Suspends(r[i], calls[i]) && forall j :: i < j < n ==> !EndsSuspension(calls[j])
  }

  ghost predicate NotShut(r: seq<Controller>, calls: seq<Call>, n: nat)
    requires n <= |calls| < |r|
  {
    forall i :: 0 <= i < n && Shuts(r[i], calls[i]) ==> exists j :: i < j < n && Reopens(r[j], calls[j])
  }

  lemma ConnectedStep(r: seq<Controller>, calls: seq<Call>, n: nat)
    requires n < |calls| < |r|
    ensures StillConnected(r, calls, n + 1) <==>
              calls[n].ControlConnected? || (StillConnected(r, calls, n) && !Drops(r[n], calls[n]))
  {
    hide Drops;
    if calls[n].ControlConnected? {
      assert n < n + 1 && calls[n].ControlConnected?;
    } else if StillConnected(r, calls, n) && !Drops(r[n], calls[n]) {
      var i :| 0 <= i < n && calls[i].ControlConnected? && forall j :: i < j < n ==> !Drops(r[j], calls[j]);
      assert forall j :: i < j < n + 1 ==> !Drops(r[j], calls[j]);
    }
    if StillConnected(r, calls, n + 1) && !calls[n].ControlConnected? {
      var i :| 0 <= i < n + 1 && calls[i].ControlConnected? && forall j :: i < j < n + 1 ==> !Drops(r[j], calls[j]);
      assert i < n;
    }
  }

  lemma CarrierStep(calls: seq<Call>, n: nat)
    requires n < |calls|
    ensures CarrierBack(calls, n + 1) <==> !LosesCarrier(calls[n]) && (calls[n].CarrierHealthy? || CarrierBack(calls, n))
  {
    if CarrierBack(calls, n) && !LosesCarrier(calls[n]) {
      forall i | 0 <= i < n + 1 && LosesCarrier(calls[i]) ensures exists j :: i < j < n + 1 && calls[j].CarrierHealthy? {
        var j :| i < j < n && calls[j].CarrierHealthy?;
        assert i < j < n + 1;
      }
    }
  }

  lemma SuspendedStep(r: seq<Controller>, calls: seq<Call>, n: nat)
    requires n < |calls| < |r|
    ensures StillSuspended(r, calls, n + 1) <==>
              Suspends(r[n], calls[n]) || (StillSuspended(r, calls, n) && !EndsSuspension(calls[n]))
  {
    hide Suspends, EndsSuspension;
    if Suspends(r[n], calls[n]) {
      assert n < n + 1 && Suspends(r[n], calls[n]);
    } else if StillSuspended(r, calls, n) && !EndsSuspension(calls[n]) {
      var i :| 0 <= i < n && Suspends(r[i], calls[i]) && forall j :: i < j < n ==> !EndsSuspension(calls[j]);
      assert forall j :: i < j < n + 1 ==> !EndsSuspension(calls[j]);
    }
    if StillSuspended(r, calls, n + 1) && !Suspends(r[n], calls[n]) {
      var i :| 0 <= i < n + 1 && Suspends(r[i], calls[i]) && forall j :: i < j < n + 1 ==> !EndsSuspension(calls[j]);
      assert i < n;
    }
  }

  lemma ShutStep(r: seq<Controller>, calls: seq<Call>, n: nat)
    requires n < |calls| < |r|
    ensures NotShut(r, calls, n + 1) <==> !Shuts(r[n], calls[n]) && (Reopens(r[n], calls[n]) || NotShut(r, calls, n))
  {
    assert Shuts(r[n], calls[n]) ==> !Reopens(r[n], calls[n]);
    hide Shuts, Reopens;
    if NotShut(r, calls, n) && !Shuts(r[n], calls[n]) {
      forall i | 0 <= i < n + 1 && Shuts(r[i], calls[i]) ensures exists j :: i < j < n + 1 && Reopens(r[j], calls[j]) {
        var j :| i < j < n && Reopens(r[j], calls[j]);
        assert i < j < n + 1;
      }
    }
  }

  /** What one call does to each flag, seen on the call alone. */
  lemma FlagsMove(c: Controller, call: Call)
    requires Inv(c) && (c.suspended ==> c.gate.awaiting)
    ensures var d := Step(c, call);
            && (d.suspended ==> d.gate.awaiting)
            && (d.authenticated <==> call.ControlConnected? || (c.authenticated && !Drops(c, call)))
            && (d.carrierHealthy <==> !LosesCarrier(call) && (call.CarrierHealthy? || c.carrierHealthy))
            && (d.suspended <==> Suspends(c, call) || (c.suspended && !EndsSuspension(call)))
            && (d.gate.awaiting || d.gate.enabled <==> !Shuts(c, call) && (Reopens(c, call) || c.gate.awaiting || c.gate.enabled))
  {
  }

  /** When the gate is open, told from the calls: control has connected and no suspension, inactivity or
      carrier loss has acted since, and every carrier loss was followed by the carrier's return. While it
      is not open, connections may wait for it exactly when no shutting call is the last word. */
  lemma {:induction false} GateIsOpenIff(calls: seq<Call>)
    ensures var r, n := Run(START, calls), |calls|;
            && (r[n].gate.enabled <==> StillConnected(r, calls, n) && CarrierBack(calls, n))
            && (r[n].suspended <==> StillSuspended(r, calls, n))
            && (r[n].gate.awaiting <==> !r[n].gate.enabled && NotShut(r, calls, n))
  {
    var r := Run(START, calls);
    RunKeepsInv(START, calls);
    hide Run, StillConnected, CarrierBack, StillSuspended, NotShut, Step, Drops, Suspends, Shuts, Reopens, EndsSuspension;
    NothingCalled(r, calls);
    for n := 0 to |calls|
      invariant r[n].authenticated <==> StillConnected(r, calls, n)
      invariant r[n].carrierHealthy <==> CarrierBack(calls, n)
      invariant r[n].suspended <==> StillSuspended(r, calls, n)
      invariant r[n].suspended ==> r[n].gate.awaiting
      invariant r[n].gate.awaiting || r[n].gate.enabled <==> NotShut(r, calls, n)
    {
      assert r[n + 1] == Step(r[n], calls[n]) && Inv(r[n]);
      FlagsMove(r[n], calls[n]);
      ConnectedStep(r, calls, n);
      CarrierStep(calls, n);
      SuspendedStep(r, calls, n);
      ShutStep(r, calls, n);
    }
    assert Inv(r[|calls|]);
  }

  lemma NothingCalled(r: seq<Controller>, calls: seq<Call>)
    requires |calls| < |r| && r[0] == START
    ensures !StillConnected(r, calls, 0) && CarrierBack(calls, 0) && !StillSuspended(r, calls, 0) && NotShut(r, calls, 0)
    ensures !START.authenticated && START.carrierHealthy && !START.suspended && START.gate.awaiting && Inv(START)
  {
  }

  /** The grace of a degradation is armed exactly once per loss, on an authenticated control, and every
      control event disarms it. */
  lemma LossIsPendingIff(c: Controller, call: Call)
    requires Inv(c)
    ensures Step(c, call).lossPending <==>
              if call.ControlDegraded? then c.authenticated && (c.lossPending || !c.suspended)
              else c.lossPending && !IsControlEvent(c, call)
  {
  }

  // ---------------------------------------------------- the objects in the source

  class GateCell {
    var enabled: bool
    var awaiting: bool
    var generation: nat

    function Model(): Gate
      reads this
    {
      Gate(enabled, awaiting, generation)
    }

    constructor ()
      ensures Model() == Gate(false, false, 0)
    {
      enabled, awaiting, generation := false, false, 0;
    }

    method Enable(on: bool)
      modifies this
      ensures Model() == GateStep(old(Model()), SetEnabled(on))
    {
      if enabled == on && !awaiting { return; }
      enabled, awaiting, generation := on, false, Min(generation + 1, U64_MAX);
    }

    method AwaitActivation()
      modifies this
      ensures Model() == GateStep(old(Model()), WaitForActivation)
    {
      if enabled || awaiting { return; }
      awaiting, generation := true, Min(generation + 1, U64_MAX);
    }

    method InvalidateAndAwait()
      modifies this
      ensures Model() == GateStep(old(Model()), Invalidate)
    {
      if !enabled && awaiting { return; }
      enabled, awaiting, generation := false, true, Min(generation + 1, U64_MAX);
    }
  }

  class EligibilityController {
    const gate: GateCell
    var carrierHealthy: bool
    var authenticated: bool
    var lossPending: bool
    var suspended: bool
    var epoch: nat

    function Model(): Controller
      reads this, gate
    {
      Controller(gate.Model(), carrierHealthy, authenticated, lossPending, suspended, epoch)
    }

    constructor (g: GateCell)
      ensures gate == g && Model() == Controller(g.Model(), true, false, false, false, 0)
    {
      gate := g;
      carrierHealthy, authenticated, lossPending, suspended, epoch := true, false, false, false, 0;
    }

    method Advance()
      modifies this`epoch, this`lossPending
      ensures Model() == NextEpoch(old(Model()))
    {
      epoch, lossPending := Wrap(epoch + 1), false;
    }

    method Connected()
      modifies this, gate
      ensures Model() == Step(old(Model()), ControlConnected)
    {
      Advance();
      authenticated, suspended := true, false;
      if carrierHealthy { gate.Enable(true); } else { gate.AwaitActivation(); }
    }

    method Suspend()
      modifies this, gate
      ensures Model() == Step(old(Model()), ScreenSuspended)
    {
      Advance();
      authenticated, suspended := false, true;
      gate.InvalidateAndAwait();
    }

    method SuspendIfEpoch(at: nat) returns (acted: bool)
      modifies this, gate
      ensures Model() == Step(old(Model()), ScreenSuspendedIfEpoch(at)) && acted == old(ProbeActs(Model(), at))
    {
      if epoch != at || !authenticated { return false; }
      Suspend();
      return true;
    }

    method Wake()
      modifies this, gate
      ensures Model() == Step(old(Model()), AuthenticatedWake)
    {
      Advance();
      suspended := false;
      gate.AwaitActivation();
    }

    /** Returns the epoch the grace timer must carry, if one was armed. */
    method Degrade() returns (armed: Option<nat>)
      modifies this
      ensures Model() == Step(old(Model()), ControlDegraded)
      ensures armed == if old(IsControlEvent(Model(), ControlDegraded)) then Some(epoch) else None
    {
      if !authenticated || lossPending || suspended { return None; }
      Advance();
      lossPending := true;
      return Some(epoch);
    }

    method InactiveIfEpoch(at: nat) returns (acted: bool)
      modifies this, gate
      ensures Model() == Step(old(Model()), ControlInactiveIfEpoch(at))
      ensures acted == old(ProbeActs(Model(), at) && !suspended)
    {
      if epoch != at || !authenticated || suspended { return false; }
      Advance();
      authenticated := false;
      gate.Enable(false);
      return true;
    }

    method Inactive(awaitRecovery: bool)
      modifies this, gate
      ensures Model() == Step(old(Model()), if awaitRecovery then ControlInactiveAwaitingRecovery else ControlInactive)
    {
      Advance();
      authenticated, suspended := false, false;
      if awaitRecovery { gate.InvalidateAndAwait(); } else { gate.Enable(false); }
    }

    method LoseCarrier(awaitRecovery: bool)
      modifies this, gate
      ensures Model() == Step(old(Model()), if awaitRecovery then CarrierLostAwaitingRecovery else CarrierLost)
    {
      Advance();
      carrierHealthy, authenticated, suspended := false, false, false;
      if awaitRecovery { gate.InvalidateAndAwait(); } else { gate.Enable(false); }
    }

    method RestoreCarrier()
      modifies this, gate
      ensures Model() == Step(old(Model()), CarrierHealthy)
    {
      carrierHealthy := true;
      if suspended { return; }
      if authenticated { gate.Enable(true); } else { gate.AwaitActivation(); }
    }
  }
}
