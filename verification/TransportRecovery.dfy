/** Transport recovery of the ADB monitor (runtime.rs): generations, attempts, delayed control
    timers and the one-shot automatic rearm, in every interleaving of the monitor loop with
    its timers, host resume and authenticated control. */
module TransportRecovery {
  import opened Base

  datatype RecoveryState =
    Idle | Pending | WaitingForDevice | RebuildingMappings | AwaitingControl | Recovered | Failed

  datatype Trigger = HostResumed | UsbReconnected

  const MAX_ATTEMPTS: nat := 2

  datatype Recovery = Recovery(generation: nat, attempt: nat, state: RecoveryState, trigger: Option<Trigger>)

  /** The part of the monitor object that recovery reads and writes. */
  datatype Core = Core(recovery: Recovery, autoRearm: nat, usbPending: bool, stopping: bool)

  const FRESH := Core(Recovery(0, 0, Idle, None), 0, false, false)

  predicate RequiresRecovery(r: Recovery) { r.state in {Pending, WaitingForDevice, RebuildingMappings, Failed} }

  /** The locked section of a notification and of a rearm: a new generation from its first attempt. */
  function Bumped(c: Core, why: Trigger): Core {
    c.(recovery := Recovery(c.recovery.generation + 1, 0, Pending, Some(why)))
  }

  function Notified(c: Core, why: Trigger): Core { Bumped(c.(autoRearm := 0), why) }

  /** What a rearm task reads first, and what it then finds under the lock. */
  predicate PassesCheck(c: Core, g: nat) { !c.stopping && c.autoRearm != g }

  predicate RearmActs(c: Core, g: nat) { c.recovery.generation == g && c.recovery.state == Failed }

  predicate CanRearm(c: Core, g: nat) { PassesCheck(c, g) && RearmActs(c, g) }

  function Rearmed(c: Core, why: Trigger): Core { Bumped(c, why).(autoRearm := c.recovery.generation + 1) }

  predicate CanRearmAuthenticated(c: Core) {
    !c.stopping && c.recovery.state == Failed && c.recovery.trigger.Some?
  }

  /** The locked section of an authenticated rearm. */
  function Reawaited(c: Core): Core {
    c.(recovery := c.recovery.(generation := c.recovery.generation + 1, attempt := 1, state := AwaitingControl))
  }

  function RearmedAuthenticated(c: Core): Core { Reawaited(c.(autoRearm := 0)) }

  function Waited(c: Core): Core { c.(recovery := c.recovery.(attempt := 0, state := WaitingForDevice)) }

  predicate CanBegin(c: Core) { c.recovery.state in {Pending, WaitingForDevice} && c.recovery.attempt < MAX_ATTEMPTS }

  function Began(c: Core): Core {
    c.(recovery := c.recovery.(attempt := c.recovery.attempt + 1, state := RebuildingMappings))
  }

  /** The state an attempt that did not succeed falls back to. */
  function AfterFailure(r: Recovery): Recovery { r.(state := if r.attempt < MAX_ATTEMPTS then Pending else Failed) }

  function Finished(c: Core, g: nat, succeeded: bool): Core {
    if c.recovery.generation != g then c
    else c.(recovery := if succeeded then c.recovery.(state := AwaitingControl) else AfterFailure(c.recovery))
  }

  predicate WillRetry(c: Core, g: nat) { c.recovery.generation == g && c.recovery.attempt < MAX_ATTEMPTS }

  predicate CanComplete(c: Core) { c.recovery.state == AwaitingControl && c.recovery.trigger.Some? }

  function Completed(c: Core): Core { c.(recovery := c.recovery.(state := Recovered)) }

  predicate CanExpire(c: Core, g: nat, a: nat) {
    c.recovery.generation == g && c.recovery.attempt == a && c.recovery.state == AwaitingControl
  }

  function Expired(c: Core): Core { c.(recovery := AfterFailure(c.recovery)) }

  predicate NotesUsbLoss(c: Core) { c.recovery.trigger != Some(HostResumed) || !RequiresRecovery(c.recovery) }

  // ------------------------------------------------------- the concurrent system

  /** One rebuild, from its beginning to the end of its control timer. `serial` numbers
      rebuilds in the order they begin and exists only to name them. */
  datatype Attempt = Attempt(generation: nat, attempt: nat, serial: nat, trigger: Trigger)

  /** Where the sequential monitor loop stands: outside a recovery pass, past the reads of the recovery
      state and the stop flag with the device seen or not, awaiting a rebuild, or between clearing the
      auto-rearm marker and the locked section of a USB notification. */
  datatype Loop = Free | Checked(available: bool) | Rebuilding(attempt: Attempt) | Notifying

  datatype System = System(
    core: Core,
    begun: nat,                    // rebuilds begun so far
    loop: Loop,
    timers: set<Attempt>,          // control timers still sleeping
    toSchedule: multiset<(nat, Trigger)>,  // failed attempts about to ask for a rearm
    scheduled: set<nat>,           // the source's set of generations with a sleeping rearm
    rearms: set<(nat, Trigger)>,   // rearm tasks still sleeping
    rearming: multiset<(nat, Trigger)>,   // rearm tasks past their check of the flag and the marker
    stores: multiset<nat>,         // values a rearm has still to store to the auto-rearm marker
    resumes: nat,                  // host resumes that have cleared the marker but not locked yet
    automatic: bool)               // whether the current generation was made by an automatic rearm

  const START := System(FRESH, 0, Free, {}, multiset{}, {}, {}, multiset{}, multiset{}, 0, false)

  datatype Event =
    | HostResume
    | ResumeLocks
    | UsbLost
    | UsbBack
    | UsbLocks
    | EnterRecovery(available: bool)
    | DeviceAbsent
    | BeginRebuild
    | Rebuilt(ok: bool)
    | Abandon
    | ControlTimeout(t: Attempt)
    | Schedule(g: nat, why: Trigger)
    | RearmTimer(g: nat, why: Trigger)
    | RearmLocks(g: nat, why: Trigger)
    | StoreMarker(v: nat)
    | AuthenticatedControl
    | AuthenticatedRearm
    | Stop

  /** Other events of the monitor loop cannot happen during a recovery pass. */
  predicate LoopFree(s: System) { s.loop.Free? }

  predicate BeginsRebuild(s: System, e: Event) {
    e.BeginRebuild? && s.loop == Checked(true) && CanBegin(s.core)
  }

  predicate IsExternal(s: System, e: Event) {
    match e
    case ResumeLocks => s.resumes > 0
    case UsbLocks => s.loop.Notifying?
    case DeviceAbsent => s.loop == Checked(false)
    case AuthenticatedRearm => CanRearmAuthenticated(s.core)
    case _ => false
  }

  /** Notifications and rearms: what writes the auto-rearm marker or makes a new generation. */
  predicate TouchesMarker(e: Event) {
    e.HostResume? || e.ResumeLocks? || e.UsbBack? || e.UsbLocks? || e.RearmTimer? || e.RearmLocks? || e.StoreMarker?
    || e.AuthenticatedRearm?
  }

  function Step(s: System, e: Event): System { if TouchesMarker(e) then MarkerStep(s, e) else LoopStep(s, e) }

  function MarkerStep(s: System, e: Event): System
    requires TouchesMarker(e)
  {
    var c := s.core;
    match e
    case HostResume => s.(core := c.(autoRearm := 0, usbPending := false), resumes := s.resumes + 1)
    case ResumeLocks =>
      if IsExternal(s, e) then s.(core := Bumped(c, HostResumed), resumes := s.resumes - 1, automatic := false) else s
    case UsbBack =>
      if LoopFree(s) && c.usbPending then s.(core := c.(autoRearm := 0, usbPending := false), loop := Notifying) else s
    case UsbLocks =>
      if IsExternal(s, e) then s.(core := Bumped(c, UsbReconnected), loop := Free, automatic := false) else s
    case RearmTimer(g, why) =>
      if (g, why) !in s.rearms then s
      else
        var s' := s.(scheduled := s.scheduled - {g}, rearms := s.rearms - {(g, why)});
        if PassesCheck(c, g) then s'.(rearming := s.rearming + multiset{(g, why)}) else s'
    case RearmLocks(g, why) =>
      if (g, why) !in s.rearming then s
      else
        var s' := s.(rearming := s.rearming - multiset{(g, why)});
        if RearmActs(c, g)
        then s'.(core := Bumped(c, why), stores := s.stores + multiset{g + 1}, automatic := true) else s'
    case StoreMarker(v) =>
      if v in s.stores then s.(core := c.(autoRearm := v), stores := s.stores - multiset{v}) else s
    case AuthenticatedRearm =>
      if IsExternal(s, e) then s.(core := Reawaited(c), stores := s.stores + multiset{0}, automatic := false) else s
  }

  function LoopStep(s: System, e: Event): System
    requires !TouchesMarker(e)
  {
    var c := s.core;
    match e
    case UsbLost => if LoopFree(s) && NotesUsbLoss(c) then s.(core := c.(usbPending := true)) else s
    case EnterRecovery(available) =>
      if LoopFree(s) && RequiresRecovery(c.recovery) && !c.stopping then s.(loop := Checked(available)) else s
    case DeviceAbsent => if IsExternal(s, e) then s.(core := Waited(c), loop := Free) else s
    case BeginRebuild =>
      if s.loop != Checked(true) then s
      else if !CanBegin(c) then s.(loop := Free)
      else
        var n := s.begun + 1;
        var s' := s.(core := Began(c), begun := n);
        if c.recovery.trigger == None then s'.(loop := Free)
        else s'.(loop := Rebuilding(Attempt(c.recovery.generation, c.recovery.attempt + 1, n, c.recovery.trigger.value)))
    case Abandon =>
      if s.loop.Rebuilding? && (c.stopping || c.recovery.generation != s.loop.attempt.generation)
      then s.(loop := Free) else s
    case Rebuilt(ok) =>
      if !s.loop.Rebuilding? then s
      else
        var f := s.loop.attempt;
        var s' := s.(core := Finished(c, f.generation, ok), loop := Free);
        if ok then s'.(timers := s.timers + {f})
        else if WillRetry(c, f.generation) then s'
        else s'.(toSchedule := s.toSchedule + multiset{(f.generation, f.trigger)})
    case ControlTimeout(t) =>
      if t !in s.timers then s
      else
        var s' := s.(timers := s.timers - {t});
        if !CanExpire(c, t.generation, t.attempt) then s'
        else
          var s'' := s'.(core := Expired(c));
          if c.recovery.attempt < MAX_ATTEMPTS then s''
          else s''.(toSchedule := s.toSchedule + multiset{(t.generation, t.trigger)})
    case Schedule(g, why) =>
      if (g, why) !in s.toSchedule then s
      else
        var s' := s.(toSchedule := s.toSchedule - multiset{(g, why)});
        if c.autoRearm == g || g in s.scheduled then s'
        else s'.(scheduled := s.scheduled + {g}, rearms := s.rearms + {(g, why)})
    case AuthenticatedControl => if LoopFree(s) && CanComplete(c) then s.(core := Completed(c)) else s
    case Stop => s.(core := c.(stopping := true))
  }

  function Run(s: System, es: seq<Event>): System {
    if es == [] then s else Step(Run(s, es[..|es| - 1]), es[|es| - 1])
  }

  // ---------------------------------------------------------------- invariant

  /** A control timer of the current generation is the one of the rebuild that is awaiting
      control now, or that rebuild has already recovered. */
  ghost predicate TimerOk(s: System, t: Attempt) {
    && t.generation <= s.core.recovery.generation
    && (t.generation == s.core.recovery.generation ==>
          && s.core.recovery.trigger == Some(t.trigger)
          && (s.core.recovery.state == Recovered
              || (s.core.recovery.state == AwaitingControl
                  && s.core.recovery.attempt == t.attempt && s.begun == t.serial)))
  }

  ghost predicate InFlightOk(s: System, f: Attempt) {
    && f.generation <= s.core.recovery.generation
    && (f.generation == s.core.recovery.generation ==>
          && s.core.recovery.state == RebuildingMappings && s.core.recovery.attempt == f.attempt
          && s.core.recovery.trigger == Some(f.trigger) && s.begun == f.serial)
  }

  ghost predicate Inv(s: System) {
    && CoreOk(s)
    && (forall t :: t in s.timers ==> TimerOk(s, t))
    && (s.loop.Checked? ==> forall t :: t in s.timers ==> t.generation < s.core.recovery.generation)
  }

  /** Timers of one generation that can still act are all the same timer. */
  lemma SameGenerationSameTimer(s: System, t: Attempt, u: Attempt)
    requires TimerOk(s, t) && TimerOk(s, u) && CanExpire(s.core, t.generation, t.attempt)
    requires u.generation == t.generation
    ensures u == t
  {
  }

  lemma MarkerKeepsTimer(s: System, e: Event, t: Attempt)
    requires TouchesMarker(e) && TimerOk(s, t)
    ensures TimerOk(MarkerStep(s, e), t)
  {
  }

  lemma LoopKeepsTimer(s: System, e: Event, t: Attempt)
    requires Inv(s) && !TouchesMarker(e) && t in LoopStep(s, e).timers
    ensures TimerOk(LoopStep(s, e), t)
  {
    if t in s.timers {
      assert TimerOk(s, t);
      if e.ControlTimeout? && e.t in s.timers { assert TimerOk(s, e.t); }
    }
  }

  lemma StepKeepsTimer(s: System, e: Event, t: Attempt)
    requires Inv(s) && t in Step(s, e).timers
    ensures TimerOk(Step(s, e), t)
  {
    hide MarkerStep, LoopStep;
    if TouchesMarker(e) {
      MarkerKeepsTimers(s, e);
      assert TimerOk(s, t);
      MarkerKeepsTimer(s, e, t);
    } else {
      LoopKeepsTimer(s, e, t);
    }
  }

  lemma MarkerKeepsTimers(s: System, e: Event)
    requires TouchesMarker(e)
    ensures MarkerStep(s, e).timers == s.timers
    ensures MarkerStep(s, e).loop == s.loop || e.UsbBack? || e.UsbLocks?
    ensures MarkerStep(s, e).loop.Checked? || MarkerStep(s, e).loop.Rebuilding? ==> s.loop == MarkerStep(s, e).loop
  {
    hide Bumped, Reawaited, PassesCheck, RearmActs;
  }

  /** The timer-free part of the invariant. */
  ghost predicate CoreOk(s: System) {
    var r := s.core.recovery;
    && r.attempt <= MAX_ATTEMPTS
    && (r.state != Idle ==> r.trigger.Some?)
    && (s.loop.Rebuilding? ==> InFlightOk(s, s.loop.attempt))
    && (s.loop.Checked? ==> r.state != Idle)
  }

  lemma StepKeepsCore(s: System, e: Event)
    requires CoreOk(s)
    requires e.ControlTimeout? && e.t in s.timers ==> TimerOk(s, e.t)
    ensures CoreOk(Step(s, e))
  {
    hide MarkerStep, LoopStep, CoreOk;
    if TouchesMarker(e) { MarkerKeepsCore(s, e); } else { LoopKeepsCore(s, e); }
  }

  lemma MarkerKeepsCore(s: System, e: Event)
    requires CoreOk(s) && TouchesMarker(e)
    ensures CoreOk(MarkerStep(s, e))
  {
  }

  lemma LoopKeepsCore(s: System, e: Event)
    requires CoreOk(s) && !TouchesMarker(e)
    requires e.ControlTimeout? && e.t in s.timers ==> TimerOk(s, e.t)
    ensures CoreOk(LoopStep(s, e))
  {
  }

  /** While the loop is past its reads, no timer of the current generation is left. */
  lemma CheckedHasNoTimer(s: System, e: Event)
    requires Inv(s) && Step(s, e).loop.Checked?
    ensures forall t :: t in Step(s, e).timers ==> t.generation < Step(s, e).core.recovery.generation
  {
    hide MarkerStep, LoopStep;
    GenerationsOnlyGrow(s, e);
    forall t | t in Step(s, e).timers ensures t.generation < Step(s, e).core.recovery.generation {
      if TouchesMarker(e) { MarkerKeepsTimers(s, e); } else { LoopChecks(s, e); }
      assert TimerOk(s, t);
    }
  }

  lemma LoopChecks(s: System, e: Event)
    requires !TouchesMarker(e) && LoopStep(s, e).loop.Checked?
    ensures LoopStep(s, e).timers <= s.timers
    ensures s.loop.Checked? || RequiresRecovery(s.core.recovery)
  {
  }

  lemma StepKeepsInv(s: System, e: Event)
    requires Inv(s)
    ensures Inv(Step(s, e))
  {
    StepKeepsCore(s, e);
    forall t | t in Step(s, e).timers ensures TimerOk(Step(s, e), t) { StepKeepsTimer(s, e, t); }
    if Step(s, e).loop.Checked? { CheckedHasNoTimer(s, e); }
  }

  lemma {:induction false} ReachableInv(es: seq<Event>)
    ensures Inv(Run(START, es))
  {
    if es != [] {
      ReachableInv(es[..|es| - 1]);
      StepKeepsInv(Run(START, es[..|es| - 1]), es[|es| - 1]);
    }
  }

  /** A control timeout only ever acts on the rebuild that armed it, although attempt numbers
      restart within a generation: if firing changes the recovery, the latest rebuild is the
      timer's own, and no other timer of that generation remains. */
  lemma TimeoutActsOnItsOwnAttempt(es: seq<Event>, t: Attempt)
    ensures var s := Run(START, es);
            t in s.timers && Step(s, ControlTimeout(t)).core != s.core ==>
              && s.begun == t.serial && s.core.recovery.state == AwaitingControl
              && forall u :: u in Step(s, ControlTimeout(t)).timers ==> u.generation < t.generation
  {
    ReachableInv(es);
    TimeoutActs(Run(START, es), t);
  }

  lemma TimeoutActs(s: System, t: Attempt)
    requires Inv(s)
    ensures t in s.timers && Step(s, ControlTimeout(t)).core != s.core ==>
              && s.begun == t.serial && s.core.recovery.state == AwaitingControl
              && forall u :: u in Step(s, ControlTimeout(t)).timers ==> u.generation < t.generation
  {
    if t in s.timers && Step(s, ControlTimeout(t)).core != s.core {
      assert TimerOk(s, t);
      forall u | u in s.timers && u != t ensures u.generation < t.generation {
        assert TimerOk(s, u);
        if u.generation == t.generation {
          SameGenerationSameTimer(s, t, u);
        }
      }
    }
  }

  /** While a rebuild runs, nothing else can have settled its generation: finishing it may
      check the generation alone. */
  lemma FinishSettlesItsOwnAttempt(es: seq<Event>)
    requires var s := Run(START, es);
             s.loop.Rebuilding? && s.loop.attempt.generation == s.core.recovery.generation
    ensures var s := Run(START, es);
            && s.core.recovery.state == RebuildingMappings
            && s.core.recovery.attempt == s.loop.attempt.attempt && s.begun == s.loop.attempt.serial
  {
    ReachableInv(es);
  }

  // ------------------------------------------------------------- bounded rebuilds

  /** Rebuilds the present generation and its one automatic rearm may still begin. */
  function Potential(s: System): int {
    var r := s.core.recovery;
    if r.state == Idle then 0
    else MAX_ATTEMPTS - r.attempt + if s.automatic then 0 else MAX_ATTEMPTS
  }

  function Rebuilds(s: System, es: seq<Event>): nat {
    if es == [] then 0
    else Rebuilds(s, es[..|es| - 1]) + if BeginsRebuild(Run(s, es[..|es| - 1]), es[|es| - 1]) then 1 else 0
  }

  function Externals(s: System, es: seq<Event>): nat {
    if es == [] then 0
    else Externals(s, es[..|es| - 1]) + if IsExternal(Run(s, es[..|es| - 1]), es[|es| - 1]) then 1 else 0
  }

  /** A generation that is an automatic rearm itself is rearmed once more. */
  predicate RearmsAgain(s: System, e: Event) {
    e.RearmLocks? && (e.g, e.why) in s.rearming && RearmActs(s.core, e.g) && s.automatic
  }

  function SecondRearms(s: System, es: seq<Event>): nat {
    if es == [] then 0
    else SecondRearms(s, es[..|es| - 1]) + if RearmsAgain(Run(s, es[..|es| - 1]), es[|es| - 1]) then 1 else 0
  }

  lemma StepPaysForRebuilds(s: System, e: Event)
    requires Inv(s)
    ensures 0 <= Potential(s) <= 4
    ensures IsExternal(s, e) ==> !BeginsRebuild(s, e) && Potential(Step(s, e)) <= 4
    ensures !IsExternal(s, e) ==>
              Potential(Step(s, e)) + (if BeginsRebuild(s, e) then 1 else 0)
              <= Potential(s) + (if RearmsAgain(s, e) then 2 else 0)
  {
    hide MarkerStep, LoopStep;
    if TouchesMarker(e) { MarkerPays(s, e); } else { LoopPays(s, e); }
  }

  lemma MarkerPays(s: System, e: Event)
    requires CoreOk(s) && TouchesMarker(e)
    ensures IsExternal(s, e) ==> Potential(MarkerStep(s, e)) <= 4
    ensures !IsExternal(s, e) ==> Potential(MarkerStep(s, e)) <= Potential(s) + (if RearmsAgain(s, e) then 2 else 0)
  {
  }

  lemma LoopPays(s: System, e: Event)
    requires CoreOk(s) && !TouchesMarker(e)
    ensures IsExternal(s, e) ==> Potential(LoopStep(s, e)) <= 4
    ensures !IsExternal(s, e) ==> Potential(LoopStep(s, e)) + (if BeginsRebuild(s, e) then 1 else 0) <= Potential(s)
  {
  }

  /** The account of every run, however late the stores to the marker are. */
  lemma {:induction false} RebuildsArePaidFor(s: System, es: seq<Event>)
    requires Inv(s)
    ensures Inv(Run(s, es)) && 0 <= Potential(Run(s, es)) <= 4
    ensures Rebuilds(s, es) + Potential(Run(s, es)) <= Potential(s) + 4 * Externals(s, es) + 2 * SecondRearms(s, es)
  {
    hide Inv, Potential, Step, BeginsRebuild, IsExternal, RearmsAgain;
    if es != [] {
      var before, e := Run(s, es[..|es| - 1]), es[|es| - 1];
      RebuildsArePaidFor(s, es[..|es| - 1]);
      StepPaysForRebuilds(before, e);
      StepKeepsInv(before, e);
    }
    StepPaysForRebuilds(Run(s, es), Stop);
  }

  // ------------------------------------------------- when the marker keeps its promise

  /** When a rearm task of the current generation passes its check, no store to the marker is under
      way: none that a rearm still owes, and none of a notification that has not locked yet. Such a task
      fires half a minute after the failure that scheduled it. */
  predicate Prompt(s: System, e: Event) {
    e.RearmTimer? && (e.g, e.why) in s.rearms && PassesCheck(s.core, e.g) && e.g == s.core.recovery.generation ==>
      s.stores == multiset{} && s.resumes == 0 && !s.loop.Notifying?
  }

  predicate PromptRun(s: System, es: seq<Event>) {
    es == [] || (PromptRun(s, es[..|es| - 1]) && Prompt(Run(s, es[..|es| - 1]), es[|es| - 1]))
  }

  /** Nothing waits for a generation that has not come yet. */
  ghost predicate PastOnly(s: System) {
    && (forall p :: p in s.toSchedule ==> p.0 <= s.core.recovery.generation)
    && (forall p :: p in s.rearms ==> p.0 <= s.core.recovery.generation)
    && (forall p :: p in s.rearming ==> p.0 <= s.core.recovery.generation)
  }

  /** A generation made by a rearm has the marker, or will have it before anything reads it. */
  ghost predicate Marked(s: System) {
    var g := s.core.recovery.generation;
    && (s.automatic ==> s.stores == multiset{} || s.stores == multiset{g})
    && (s.automatic && s.stores == multiset{} && s.resumes == 0 && !s.loop.Notifying? ==> s.core.autoRearm == g)
    && (forall p :: p in s.rearming && p.0 == g ==> !s.automatic && s.stores == multiset{})
  }

  lemma GenerationsOnlyGrow(s: System, e: Event)
    ensures s.core.recovery.generation <= Step(s, e).core.recovery.generation
  {
    hide Step;
    if !TouchesMarker(e) { OthersLeaveTheMarker(s, e); } else { MarkersGenerations(s, e); }
  }

  lemma MarkersGenerations(s: System, e: Event)
    requires TouchesMarker(e)
    ensures s.core.recovery.generation <= Step(s, e).core.recovery.generation <= s.core.recovery.generation + 1
  {
    hide LoopStep;
  }

  lemma StepKeepsPast(s: System, e: Event)
    requires Inv(s) && PastOnly(s)
    ensures PastOnly(Step(s, e))
  {
    hide Step;
    var t := Step(s, e);
    GenerationsOnlyGrow(s, e);
    forall p | p in t.toSchedule ensures p.0 <= t.core.recovery.generation { ScheduleIsPast(s, e, p); }
    forall p | p in t.rearms ensures p.0 <= t.core.recovery.generation { RearmIsPast(s, e, p); }
    forall p | p in t.rearming ensures p.0 <= t.core.recovery.generation { RearmIsPast(s, e, p); }
  }

  lemma ScheduleIsPast(s: System, e: Event, p: (nat, Trigger))
    requires Inv(s) && p in Step(s, e).toSchedule
    ensures p in s.toSchedule || p.0 <= s.core.recovery.generation
  {
    if e.ControlTimeout? && e.t in s.timers { assert TimerOk(s, e.t); }
  }

  lemma RearmIsPast(s: System, e: Event, p: (nat, Trigger))
    ensures p in Step(s, e).rearms ==> p in s.rearms || p in s.toSchedule
    ensures p in Step(s, e).rearming ==> p in s.rearming || p in s.rearms
  {
    hide MarkerStep, LoopStep;
    if TouchesMarker(e) { MarkerRearms(s, e, p); } else { LoopRearms(s, e, p); }
  }

  lemma MarkerRearms(s: System, e: Event, p: (nat, Trigger))
    requires TouchesMarker(e)
    ensures p in MarkerStep(s, e).rearms ==> p in s.rearms
    ensures p in MarkerStep(s, e).rearming ==> p in s.rearming || p in s.rearms
  {
  }

  lemma LoopRearms(s: System, e: Event, p: (nat, Trigger))
    requires !TouchesMarker(e)
    ensures p in LoopStep(s, e).rearms ==> p in s.rearms || p in s.toSchedule
    ensures LoopStep(s, e).rearming == s.rearming
  {
  }

  lemma OthersLeaveTheMarker(s: System, e: Event)
    requires !TouchesMarker(e)
    ensures var t := Step(s, e);
            && t.automatic == s.automatic && t.stores == s.stores && t.resumes == s.resumes && t.rearming == s.rearming
            && t.core.autoRearm == s.core.autoRearm && t.core.recovery.generation == s.core.recovery.generation
            && t.loop.Notifying? == s.loop.Notifying?
  {
    hide MarkerStep;
  }

  lemma StepKeepsMarked(s: System, e: Event)
    requires PastOnly(s) && Marked(s) && Prompt(s, e)
    ensures Marked(Step(s, e)) && !RearmsAgain(s, e)
  {
    if !TouchesMarker(e) {
      hide Step, PastOnly;
      OthersLeaveTheMarker(s, e);
    } else if e.RearmTimer? {
      TimerKeepsMarked(s, e.g, e.why);
    } else if e.RearmLocks? {
      RearmKeepsMarked(s, e.g, e.why);
    } else if e.StoreMarker? {
      StoreKeepsMarked(s, e.v);
    } else {
      NotificationKeepsMarked(s, e);
    }
  }

  lemma TimerKeepsMarked(s: System, g: nat, why: Trigger)
    requires Marked(s) && Prompt(s, RearmTimer(g, why))
    ensures Marked(Step(s, RearmTimer(g, why)))
  {
    hide LoopStep;
    var t := Step(s, RearmTimer(g, why));
    forall p | p in t.rearming && p.0 == t.core.recovery.generation ensures !t.automatic && t.stores == multiset{} {
      if p !in s.rearming { assert p == (g, why) && PassesCheck(s.core, g); }
    }
  }

  lemma RearmKeepsMarked(s: System, g: nat, why: Trigger)
    requires PastOnly(s) && Marked(s)
    ensures Marked(Step(s, RearmLocks(g, why))) && !RearmsAgain(s, RearmLocks(g, why))
  {
    hide LoopStep, PassesCheck, Reawaited;
    var t := Step(s, RearmLocks(g, why));
    if (g, why) in s.rearming && g == s.core.recovery.generation {
      assert !s.automatic && s.stores == multiset{};
    }
    forall p | p in t.rearming ensures p in s.rearming && p.0 <= s.core.recovery.generation {}
  }

  lemma StoreKeepsMarked(s: System, v: nat)
    requires Marked(s)
    ensures Marked(Step(s, StoreMarker(v)))
  {
    hide LoopStep;
    var g := s.core.recovery.generation;
    if v in s.stores && s.automatic {
      assert s.stores == multiset{g} && v == g;
      assert Step(s, StoreMarker(v)).stores == multiset{};
    }
  }

  lemma NotificationKeepsMarked(s: System, e: Event)
    requires PastOnly(s) && Marked(s)
    requires e.HostResume? || e.ResumeLocks? || e.UsbBack? || e.UsbLocks? || e.AuthenticatedRearm?
    ensures Marked(Step(s, e))
  {
    hide LoopStep;
    var t := Step(s, e);
    assert t.rearming == s.rearming;
    forall p | p in t.rearming && p.0 == t.core.recovery.generation ensures !t.automatic && t.stores == multiset{} {
      assert p.0 <= s.core.recovery.generation;
    }
  }

  lemma {:induction false} PromptMeansOnce(s: System, es: seq<Event>)
    requires Inv(s) && PastOnly(s) && Marked(s) && PromptRun(s, es)
    ensures Inv(Run(s, es)) && PastOnly(Run(s, es)) && Marked(Run(s, es)) && SecondRearms(s, es) == 0
  {
    hide Inv, PastOnly, Marked, Step, Prompt, RearmsAgain;
    if es != [] {
      var before, e := Run(s, es[..|es| - 1]), es[|es| - 1];
      PromptMeansOnce(s, es[..|es| - 1]);
      StepKeepsInv(before, e);
      StepKeepsPast(before, e);
      StepKeepsMarked(before, e);
    }
  }

  /** Exactly when a rearm task makes a second rearm: it fires on a generation made by a rearm whose
      marker it does not find. */
  lemma SecondRearmIff(s: System, g: nat, why: Trigger)
    requires (g, why) in s.rearms && !s.core.stopping && RearmActs(s.core, g) && (g, why) !in s.rearming
    ensures RearmsAgain(Step(s, RearmTimer(g, why)), RearmLocks(g, why)) <==> s.automatic && s.core.autoRearm != g
  {
    hide LoopStep;
  }

  lemma StartIsMarked()
    ensures Inv(START) && PastOnly(START) && Marked(START)
  {
  }

  /** Between consecutive external events (host resume, USB reconnect, device absence,
      authenticated rearm) at most four mapping rebuilds begin, and over a whole run at most
      four per external event, when stores to the marker are prompt. Without that assumption each
      second rearm of a generation may add two, and nothing else does. */
  lemma RebuildsAreBounded(es: seq<Event>, quiet: seq<Event>)
    ensures Rebuilds(START, es) <= 4 * Externals(START, es) + 2 * SecondRearms(START, es)
    ensures Externals(Run(START, es), quiet) == 0 ==>
              Rebuilds(Run(START, es), quiet) <= 4 + 2 * SecondRearms(Run(START, es), quiet)
    ensures PromptRun(START, es) ==> Rebuilds(START, es) <= 4 * Externals(START, es)
    ensures PromptRun(START, es) && PromptRun(Run(START, es), quiet) && Externals(Run(START, es), quiet) == 0 ==>
              Rebuilds(Run(START, es), quiet) <= 4
  {
    hide Inv, PastOnly, Marked, Run, Rebuilds, Externals, SecondRearms, PromptRun;
    StartIsMarked();
    RebuildsArePaidFor(START, es);
    RebuildsArePaidFor(Run(START, es), quiet);
    StepPaysForRebuilds(Run(START, es), Stop);
    if PromptRun(START, es) {
      PromptMeansOnce(START, es);
      if PromptRun(Run(START, es), quiet) { PromptMeansOnce(Run(START, es), quiet); }
    }
  }

  /** Four is reached by a prompt run: two failed rebuilds, the automatic rearm, two more. */
  lemma FourRebuildsAreReached() returns (quiet: seq<Event>)
    ensures var s := Run(START, [HostResume, ResumeLocks]);
            Externals(s, quiet) == 0 && Rebuilds(s, quiet) == 4 && PromptRun(s, quiet)
  {
    hide Run, Rebuilds, Externals, PromptRun, Step;
    var s := Resumed();
    var a := FailAndRearm(s);
    var s1 := Run(s, a);
    One(s1, StoreMarker(2));
    StoreIsMade(s1, 2);
    var b := [StoreMarker(2)];
    Appended(s, a, b);
    TwoFailures(Run(s1, b));
    Appended(s, a + b, TWO_FAILURES);
    quiet := a + b + TWO_FAILURES;
    PromptWithoutTimer(s1, b);
    PromptWithoutTimer(Run(s1, b), TWO_FAILURES);
    PromptAppended(s, a, b);
    PromptAppended(s, a + b, TWO_FAILURES);
  }

  /** A store that comes after the next rearm task has read the marker costs two more: six. */
  lemma ALateStoreCostsTwoMore() returns (quiet: seq<Event>)
    ensures var s := Run(START, [HostResume, ResumeLocks]);
            Externals(s, quiet) == 0 && Rebuilds(s, quiet) == 6
  {
    hide Run, Rebuilds, Externals, PromptRun, Step;
    var s := Resumed();
    var a := FailAndRearm(s);
    var s1 := Run(s, a);
    var b := FailAndRearm(s1);
    Appended(s, a, b);
    TwoFailures(Run(s1, b));
    Appended(s, a + b, TWO_FAILURES);
    quiet := a + b + TWO_FAILURES;
  }

  lemma StoreIsMade(s: System, v: nat)
    requires Rebuildable(s) && v in s.stores
    ensures Rebuildable(Step(s, StoreMarker(v)))
    ensures !BeginsRebuild(s, StoreMarker(v)) && !IsExternal(s, StoreMarker(v))
  {
  }

  /** A fresh monitor after a host resume: the first generation, pending. */
  lemma Resumed() returns (s: System)
    ensures s == Run(START, [HostResume, ResumeLocks])
    ensures Rearmable(s) && s.core.recovery.generation == 1 && s.stores == multiset{} && s.resumes == 0
  {
    hide Run, Step, Rebuilds, Externals, BeginsRebuild, IsExternal;
    s := Run(START, [HostResume, ResumeLocks]);
    Two(START, HostResume, ResumeLocks);
    ResumeSteps();
  }

  lemma ResumeSteps()
    ensures Step(Step(START, HostResume), ResumeLocks)
            == START.(core := FRESH.(recovery := Recovery(1, 0, Pending, Some(HostResumed))))
  {
    hide LoopStep;
    assert Step(START, HostResume) == START.(resumes := 1);
  }

  const ONE_FAILURE := [EnterRecovery(true), BeginRebuild, Rebuilt(false)]
  const TWO_FAILURES := ONE_FAILURE + ONE_FAILURE

  ghost predicate Rebuildable(s: System) {
    && LoopFree(s) && !s.core.stopping && s.core.recovery.state == Pending
    && s.core.recovery.attempt == 0 && s.core.recovery.trigger.Some?
  }

  /** Nothing is scheduled and the marker is not on this generation. */
  ghost predicate Rearmable(s: System) {
    && Rebuildable(s) && s.core.autoRearm != s.core.recovery.generation && s.core.autoRearm <= s.core.recovery.generation
    && s.scheduled == {} && s.rearms == {} && s.rearming == multiset{}
  }

  /** Two failures and the rearm they schedule, its store to the marker still owed. */
  lemma FailAndRearm(s: System) returns (es: seq<Event>)
    requires Rearmable(s)
    ensures Rearmable(Run(s, es)) && Rebuilds(s, es) == 2 && Externals(s, es) == 0
    ensures var g := s.core.recovery.generation + 1;
            Run(s, es).core.recovery.generation == g && Run(s, es).stores == s.stores + multiset{g}
            && Run(s, es).resumes == s.resumes
    ensures s.stores == multiset{} && s.resumes == 0 ==> PromptRun(s, es)
  {
    hide Run, Rebuilds, Externals, PromptRun, Step, BeginsRebuild, IsExternal;
    var g, why := s.core.recovery.generation, s.core.recovery.trigger.value;
    TwoFailures(s);
    var s1 := Run(s, TWO_FAILURES);
    var b := [Schedule(g, why), RearmTimer(g, why), RearmLocks(g, why)];
    RearmIsMade(s1, g, why);
    Three(s1, b[0], b[1], b[2]);
    Appended(s, TWO_FAILURES, b);
    es := TWO_FAILURES + b;
    PromptWithoutTimer(s, TWO_FAILURES);
    if s.stores == multiset{} && s.resumes == 0 {
      PromptThree(s1, b[0], b[1], b[2]);
      PromptAppended(s, TWO_FAILURES, b);
    }
  }

  lemma RearmIsMade(s: System, g: nat, why: Trigger)
    requires LoopFree(s) && !s.core.stopping && s.core.recovery.state == Failed && s.core.recovery.generation == g
    requires s.core.autoRearm < g && (g, why) in s.toSchedule && s.scheduled == {} && s.rearms == {} && s.rearming == multiset{}
    ensures var s1 := Step(s, Schedule(g, why));
            var s2 := Step(s1, RearmTimer(g, why));
            var s3 := Step(s2, RearmLocks(g, why));
            && !BeginsRebuild(s, Schedule(g, why)) && !BeginsRebuild(s1, RearmTimer(g, why)) && !BeginsRebuild(s2, RearmLocks(g, why))
            && !IsExternal(s, Schedule(g, why)) && !IsExternal(s1, RearmTimer(g, why)) && !IsExternal(s2, RearmLocks(g, why))
            && Rearmable(s3) && s3.core.recovery.generation == g + 1 && s3.stores == s.stores + multiset{g + 1}
            && s3.resumes == s.resumes
            && s1.stores == s.stores && s1.resumes == s.resumes && s1.loop == s.loop
  {
    var s1 := Step(s, Schedule(g, why));
    assert s1.scheduled == {g} && s1.rearms == {(g, why)};
    var s2 := Step(s1, RearmTimer(g, why));
    assert s2.scheduled == {} && s2.rearms == {} && s2.rearming == multiset{(g, why)};
  }

  lemma PromptThree(s: System, a: Event, b: Event, c: Event)
    requires !a.RearmTimer? && !c.RearmTimer?
    requires var s1 := Step(s, a); s1.stores == multiset{} && s1.resumes == 0 && !s1.loop.Notifying?
    ensures PromptRun(s, [a, b, c])
  {
    hide Step;
    One(s, a);
    assert [a, b, c][..2] == [a, b] && [a, b][..1] == [a] && [a][..0] == [];
    assert PromptRun(s, [a]);
    assert PromptRun(s, [a, b]);
  }

  lemma {:induction false} PromptWithoutTimer(s: System, es: seq<Event>)
    requires forall i :: 0 <= i < |es| ==> !es[i].RearmTimer?
    ensures PromptRun(s, es)
  {
    hide Step;
    if es != [] { PromptWithoutTimer(s, es[..|es| - 1]); }
  }

  lemma {:induction false} PromptAppended(s: System, a: seq<Event>, b: seq<Event>)
    requires PromptRun(s, a) && PromptRun(Run(s, a), b)
    ensures PromptRun(s, a + b)
  {
    hide Step, Prompt;
    if b == [] {
      assert a + b == a;
    } else {
      assert (a + b)[..|a + b| - 1] == a + b[..|b| - 1];
      PromptAppended(s, a, b[..|b| - 1]);
      Appended(s, a, b[..|b| - 1]);
    }
  }

  lemma TwoFailures(s: System)
    requires Rebuildable(s)
    ensures var a := TWO_FAILURES;
            && Externals(s, a) == 0 && Rebuilds(s, a) == 2
            && Run(s, a) == s.(core := s.core.(recovery := s.core.recovery.(attempt := 2, state := Failed)),
                               begun := s.begun + 2,
                               toSchedule := s.toSchedule + multiset{(s.core.recovery.generation, s.core.recovery.trigger.value)})
  {
    OneFailure(s);
    OneFailure(Run(s, ONE_FAILURE));
    Appended(s, ONE_FAILURE, ONE_FAILURE);
  }

  lemma OneFailure(s: System)
    requires LoopFree(s) && !s.core.stopping && s.core.recovery.state == Pending
    requires s.core.recovery.attempt < MAX_ATTEMPTS && s.core.recovery.trigger.Some?
    ensures var a := ONE_FAILURE;
            var r := s.core.recovery;
            var last := r.attempt + 1 == MAX_ATTEMPTS;
            && Externals(s, a) == 0 && Rebuilds(s, a) == 1
            && Run(s, a) == s.(core := s.core.(recovery := r.(attempt := r.attempt + 1, state := if last then Failed else Pending)),
                               begun := s.begun + 1,
                               toSchedule := if last then s.toSchedule + multiset{(r.generation, r.trigger.value)} else s.toSchedule)
  {
    hide Run, Rebuilds, Externals, Step, BeginsRebuild, IsExternal;
    Three(s, EnterRecovery(true), BeginRebuild, Rebuilt(false));
    FailedPass(s);
  }

  lemma FailedPass(s: System)
    requires LoopFree(s) && !s.core.stopping && s.core.recovery.state == Pending
    requires s.core.recovery.attempt < MAX_ATTEMPTS && s.core.recovery.trigger.Some?
    ensures var r := s.core.recovery;
            var last := r.attempt + 1 == MAX_ATTEMPTS;
            var s1 := Step(s, EnterRecovery(true));
            var s2 := Step(s1, BeginRebuild);
            && !BeginsRebuild(s, EnterRecovery(true)) && BeginsRebuild(s1, BeginRebuild) && !BeginsRebuild(s2, Rebuilt(false))
            && !IsExternal(s, EnterRecovery(true)) && !IsExternal(s1, BeginRebuild) && !IsExternal(s2, Rebuilt(false))
            && Step(s2, Rebuilt(false))
               == s.(core := s.core.(recovery := r.(attempt := r.attempt + 1, state := if last then Failed else Pending)),
                     begun := s.begun + 1,
                     toSchedule := if last then s.toSchedule + multiset{(r.generation, r.trigger.value)} else s.toSchedule)
  {
    hide MarkerStep;
  }

  lemma One(s: System, a: Event)
    ensures Run(s, [a]) == Step(s, a)
    ensures Rebuilds(s, [a]) == if BeginsRebuild(s, a) then 1 else 0
    ensures Externals(s, [a]) == if IsExternal(s, a) then 1 else 0
  {
    assert [a][..0] == [];
    assert Run(s, []) == s && Rebuilds(s, []) == 0 && Externals(s, []) == 0;
  }

  lemma Two(s: System, a: Event, b: Event)
    ensures Run(s, [a, b]) == Step(Step(s, a), b)
    ensures Rebuilds(s, [a, b]) == (if BeginsRebuild(s, a) then 1 else 0) + if BeginsRebuild(Step(s, a), b) then 1 else 0
    ensures Externals(s, [a, b]) == (if IsExternal(s, a) then 1 else 0) + if IsExternal(Step(s, a), b) then 1 else 0
  {
    One(s, a);
    One(Step(s, a), b);
    Appended(s, [a], [b]);
    assert [a] + [b] == [a, b];
  }

  lemma Three(s: System, a: Event, b: Event, c: Event)
    ensures Run(s, [a, b, c]) == Step(Step(Step(s, a), b), c)
    ensures Rebuilds(s, [a, b, c]) == Rebuilds(s, [a, b]) + if BeginsRebuild(Step(Step(s, a), b), c) then 1 else 0
    ensures Externals(s, [a, b, c]) == Externals(s, [a, b]) + if IsExternal(Step(Step(s, a), b), c) then 1 else 0
    ensures Rebuilds(s, [a, b]) == (if BeginsRebuild(s, a) then 1 else 0) + if BeginsRebuild(Step(s, a), b) then 1 else 0
    ensures Externals(s, [a, b]) == (if IsExternal(s, a) then 1 else 0) + if IsExternal(Step(s, a), b) then 1 else 0
  {
    hide Step, BeginsRebuild, IsExternal;
    Two(s, a, b);
    One(Step(Step(s, a), b), c);
    Appended(s, [a, b], [c]);
    assert [a, b] + [c] == [a, b, c];
  }

  lemma {:induction false} Appended(s: System, a: seq<Event>, b: seq<Event>)
    ensures Run(s, a + b) == Run(Run(s, a), b)
    ensures Rebuilds(s, a + b) == Rebuilds(s, a) + Rebuilds(Run(s, a), b)
    ensures Externals(s, a + b) == Externals(s, a) + Externals(Run(s, a), b)
  {
    if b == [] {
      assert a + b == a;
    } else {
      assert (a + b)[..|a + b| - 1] == a + b[..|b| - 1];
      Appended(s, a, b[..|b| - 1]);
    }
  }

  // ------------------------------------------------------- what each step must achieve

  /** An authenticated recovery is at rest: the loop is in no recovery pass. */
  ghost predicate Settled(s: System) {
    s.core.recovery.state == Recovered && (s.loop.Free? || s.loop.Notifying?)
  }

  lemma SettledStep(s: System, e: Event)
    requires Settled(s) && !IsExternal(s, e)
    ensures Settled(Step(s, e)) && Step(s, e).core.recovery == s.core.recovery && !BeginsRebuild(s, e)
  {
    hide MarkerStep, LoopStep;
    if TouchesMarker(e) { SettledMarkerStep(s, e); } else { SettledLoopStep(s, e); }
  }

  lemma SettledMarkerStep(s: System, e: Event)
    requires Settled(s) && !IsExternal(s, e) && TouchesMarker(e)
    ensures Settled(MarkerStep(s, e)) && MarkerStep(s, e).core.recovery == s.core.recovery
  {
  }

  lemma SettledLoopStep(s: System, e: Event)
    requires Settled(s) && !IsExternal(s, e) && !TouchesMarker(e)
    ensures Settled(LoopStep(s, e)) && LoopStep(s, e).core.recovery == s.core.recovery
  {
  }

  lemma {:induction false} SettledRun(s: System, es: seq<Event>)
    requires Settled(s)
    ensures Externals(s, es) == 0 ==>
              Settled(Run(s, es)) && Run(s, es).core.recovery == s.core.recovery && Rebuilds(s, es) == 0
  {
    hide Settled, Step, IsExternal, BeginsRebuild;
    if es != [] {
      SettledRun(s, es[..|es| - 1]);
      if Externals(s, es) == 0 { SettledStep(Run(s, es[..|es| - 1]), es[|es| - 1]); }
    }
  }

  /** Authenticated control ends the recovery: from then until the next external event no timer, rearm
      task or monitor pass touches it and no rebuild begins. */
  lemma AuthenticationEndsTheRecovery(s: System, es: seq<Event>)
    requires LoopFree(s) && s.core.recovery.state == AwaitingControl && s.core.recovery.trigger.Some?
    ensures var t := Step(s, AuthenticatedControl);
            && t.core.recovery == s.core.recovery.(state := Recovered)
            && (Externals(t, es) == 0 ==> Rebuilds(t, es) == 0 && Run(t, es).core.recovery == t.core.recovery)
  {
    hide Run, Rebuilds, Externals, MarkerStep;
    SettledRun(Step(s, AuthenticatedControl), es);
  }

  /** A monitor pass is entered exactly on a recovery that is not at rest, while Stop has not begun. */
  lemma PassIsEnteredIff(s: System, available: bool)
    requires LoopFree(s)
    ensures Step(s, EnterRecovery(available)) ==
            if !s.core.stopping && s.core.recovery.state in {Pending, WaitingForDevice, RebuildingMappings, Failed}
            then s.(loop := Checked(available)) else s
  {
    hide MarkerStep;
  }

  /** Device absence gives every recovery both attempts back, from Failed too, and the pass after the
      device has returned begins a rebuild. */
  lemma AbsenceRestoresTheAttempts(s: System)
    requires s.loop == Checked(false) && !s.core.stopping
    ensures var t := Step(s, DeviceAbsent);
            && t.core.recovery == s.core.recovery.(attempt := 0, state := WaitingForDevice) && LoopFree(t)
            && BeginsRebuild(Step(t, EnterRecovery(true)), BeginRebuild)
  {
    hide MarkerStep;
  }

  /** How a rebuild ends, in every reachable state in which it is still its generation's: success awaits
      control and arms the timer of this rebuild; a first failure is retried; a second one fails the
      recovery and asks for the rearm. */
  lemma RebuildEnds(es: seq<Event>, ok: bool)
    ensures var s := Run(START, es);
            s.loop.Rebuilding? && s.loop.attempt.generation == s.core.recovery.generation ==>
              var f, t := s.loop.attempt, Step(s, Rebuilt(ok));
              && LoopFree(t) && t.core.recovery.attempt == f.attempt && f.attempt in {1, 2}
              && t.core.recovery.state == (if ok then AwaitingControl else if f.attempt == 1 then Pending else Failed)
              && t.timers == (if ok then s.timers + {f} else s.timers)
              && (!ok && f.attempt == 2 ==> (f.generation, f.trigger) in t.toSchedule)
  {
    hide Run, MarkerStep;
    ReachableInv(es);
    ReachableAttempts(es);
  }

  /** A rebuild in flight is the first or the second of its generation. */
  ghost predicate AttemptsOk(s: System) {
    && (s.loop.Rebuilding? ==> s.loop.attempt.attempt in {1, 2})
    && (forall t :: t in s.timers ==> t.attempt in {1, 2})
  }

  lemma StepKeepsAttempts(s: System, e: Event)
    requires AttemptsOk(s)
    ensures AttemptsOk(Step(s, e))
  {
    hide MarkerStep, LoopStep;
    if TouchesMarker(e) { MarkerKeepsTimers(s, e); } else { LoopKeepsAttempts(s, e); }
  }

  lemma LoopKeepsAttempts(s: System, e: Event)
    requires AttemptsOk(s) && !TouchesMarker(e)
    ensures AttemptsOk(LoopStep(s, e))
  {
  }

  lemma {:induction false} ReachableAttempts(es: seq<Event>)
    ensures AttemptsOk(Run(START, es))
  {
    hide Step;
    if es != [] {
      ReachableAttempts(es[..|es| - 1]);
      StepKeepsAttempts(Run(START, es[..|es| - 1]), es[|es| - 1]);
    }
  }

  /** A timer whose rebuild still awaits control does act: it retries after the first attempt, and
      after the second fails the recovery and asks for the rearm. */
  lemma TimeoutMustAct(es: seq<Event>, f: Attempt)
    ensures var s := Run(START, es);
            f in s.timers && f.generation == s.core.recovery.generation && s.core.recovery.state == AwaitingControl ==>
              var t := Step(s, ControlTimeout(f));
              && t.core.recovery == s.core.recovery.(state := if f.attempt == 1 then Pending else Failed)
              && t.timers == s.timers - {f}
              && (f.attempt == 2 ==> (f.generation, f.trigger) in t.toSchedule)
  {
    hide Run, MarkerStep;
    ReachableInv(es);
    ReachableAttempts(es);
    var s := Run(START, es);
    if f in s.timers { assert TimerOk(s, f); }
  }

  /** A failed generation that asked for a rearm, and is not one itself, gets it: a new generation,
      pending from its first attempt, whose marker store is owed. */
  lemma FailureIsRearmed(s: System, g: nat, why: Trigger)
    requires !s.core.stopping && s.core.recovery.state == Failed && s.core.recovery.generation == g
    requires (g, why) in s.toSchedule && s.core.autoRearm != g && g !in s.scheduled && (g, why) !in s.rearms
    ensures var s1 := Step(s, Schedule(g, why));
            var t := Step(Step(s1, RearmTimer(g, why)), RearmLocks(g, why));
            && t.core.recovery == Recovery(g + 1, 0, Pending, Some(why)) && t.automatic && g + 1 in t.stores
            && Step(t, StoreMarker(g + 1)).core.autoRearm == g + 1
  {
    var s1 := Step(s, Schedule(g, why));
    assert (g, why) in s1.rearms && s1.core == s.core;
    var s2 := Step(s1, RearmTimer(g, why));
    assert (g, why) in s2.rearming && s2.core == s.core;
  }

  // ------------------------------------------------------ one failure, at most one rearm

  /** The event uses up the attempts of the generation it belongs to: a failed rebuild that will not be
      retried, or a control timeout of the last attempt. */
  predicate Exhausts(s: System, e: Event) {
    match e
    case Rebuilt(ok) => !ok && s.loop.Rebuilding? && !WillRetry(s.core, s.loop.attempt.generation)
    case ControlTimeout(t) => t in s.timers && CanExpire(s.core, t.generation, t.attempt) && t.attempt >= MAX_ATTEMPTS
    case _ => false
  }

  predicate MakesRearm(s: System, e: Event) {
    e.RearmLocks? && (e.g, e.why) in s.rearming && RearmActs(s.core, e.g)
  }

  function Exhaustions(s: System, es: seq<Event>): nat {
    if es == [] then 0
    else Exhaustions(s, es[..|es| - 1]) + if Exhausts(Run(s, es[..|es| - 1]), es[|es| - 1]) then 1 else 0
  }

  function Rearms(s: System, es: seq<Event>): nat {
    if es == [] then 0
    else Rearms(s, es[..|es| - 1]) + if MakesRearm(Run(s, es[..|es| - 1]), es[|es| - 1]) then 1 else 0
  }

  /** Rearms that may still come of failures in the past. */
  function Owed(s: System): nat { |s.toSchedule| + |s.rearms| + |s.rearming| }

  lemma StepOwes(s: System, e: Event)
    ensures Owed(Step(s, e)) + (if MakesRearm(s, e) then 1 else 0) <= Owed(s) + if Exhausts(s, e) then 1 else 0
  {
    hide Bumped, Finished, Expired, Completed, Began, Waited, Reawaited, CanBegin, NotesUsbLoss;
    if TouchesMarker(e) { MarkerOwes(s, e); } else { LoopOwes(s, e); }
  }

  lemma MarkerOwes(s: System, e: Event)
    requires TouchesMarker(e)
    ensures !Exhausts(s, e) && Owed(MarkerStep(s, e)) + (if MakesRearm(s, e) then 1 else 0) <= Owed(s)
  {
    hide Bumped, Reawaited;
  }

  lemma LoopOwes(s: System, e: Event)
    requires !TouchesMarker(e)
    ensures !MakesRearm(s, e) && Owed(LoopStep(s, e)) <= Owed(s) + if Exhausts(s, e) then 1 else 0
  {
    hide LoopStep, Exhausts;
    if e.Schedule? {
      ScheduleOwes(s, e.g, e.why);
    } else {
      var p := OneMoreFailure(s, e);
      if Exhausts(s, e) { assert |s.toSchedule + multiset{p}| == |s.toSchedule| + 1; }
    }
  }

  lemma ScheduleOwes(s: System, g: nat, why: Trigger)
    ensures Owed(LoopStep(s, Schedule(g, why))) <= Owed(s)
  {
    if (g, why) in s.toSchedule {
      assert |s.toSchedule - multiset{(g, why)}| == |s.toSchedule| - 1;
      assert |s.rearms + {(g, why)}| <= |s.rearms| + 1;
    }
  }

  lemma OneMoreFailure(s: System, e: Event) returns (p: (nat, Trigger))
    requires !TouchesMarker(e) && !e.Schedule?
    ensures LoopStep(s, e).rearms == s.rearms && LoopStep(s, e).rearming == s.rearming
    ensures LoopStep(s, e).toSchedule == if Exhausts(s, e) then s.toSchedule + multiset{p} else s.toSchedule
  {
    hide Finished, Expired, Completed, Began, Waited, CanBegin, NotesUsbLoss, RequiresRecovery;
    p := (0, HostResumed);
    if e.Rebuilt? && s.loop.Rebuilding? { p := (s.loop.attempt.generation, s.loop.attempt.trigger); }
    if e.ControlTimeout? { p := (e.t.generation, e.t.trigger); }
  }

  lemma NothingIsOwed()
    ensures Owed(START) == 0
  {
  }

  /** In every run, automatic rearms are made of exhausted generations one for one: no failure is
      rearmed twice, whatever its request, its timer and its locked section are interleaved with. */
  lemma {:induction false} RearmsComeFromFailures(es: seq<Event>)
    ensures Rearms(START, es) + Owed(Run(START, es)) <= Exhaustions(START, es)
  {
    hide Step, Exhausts, MakesRearm, Owed;
    if es == [] {
      NothingIsOwed();
    } else {
      RearmsComeFromFailures(es[..|es| - 1]);
      StepOwes(Run(START, es[..|es| - 1]), es[|es| - 1]);
    }
  }

  /** No recovery pass keeps the loop: a pass without the device ends at once, one with it after at most
      one rebuild; a rebuild is given up early exactly when a stop or a newer generation overtook it, and
      giving it up changes nothing of the recovery. */
  lemma PassComesToAnEnd(s: System, ok: bool)
    ensures s.loop == Checked(false) ==> LoopFree(Step(s, DeviceAbsent))
    ensures s.loop == Checked(true) ==> var t := Step(s, BeginRebuild); LoopFree(t) || LoopFree(Step(t, Rebuilt(ok)))
    ensures s.loop.Rebuilding? ==> LoopFree(Step(s, Rebuilt(ok)))
    ensures s.loop.Rebuilding? ==>
              Step(s, Abandon) == if s.core.stopping || s.core.recovery.generation != s.loop.attempt.generation
                                  then s.(loop := Free) else s
    ensures s.loop.Notifying? ==> LoopFree(Step(s, UsbLocks))
  {
    hide MarkerStep, LoopStep;
    RebuildFreesTheLoop(s, ok);
    RebuildFreesTheLoop(Step(s, BeginRebuild), ok);
    OthersFreeTheLoop(s);
  }

  lemma RebuildFreesTheLoop(s: System, ok: bool)
    ensures s.loop.Rebuilding? ==> LoopFree(LoopStep(s, Rebuilt(ok)))
    ensures s.loop == Checked(true) ==> LoopFree(LoopStep(s, BeginRebuild)) || LoopStep(s, BeginRebuild).loop.Rebuilding?
  {
    hide Finished, Began, CanBegin, WillRetry;
  }

  lemma OthersFreeTheLoop(s: System)
    ensures s.loop == Checked(false) ==> LoopFree(LoopStep(s, DeviceAbsent))
    ensures s.loop.Rebuilding? ==>
              LoopStep(s, Abandon) == if s.core.stopping || s.core.recovery.generation != s.loop.attempt.generation
                                      then s.(loop := Free) else s
    ensures s.loop.Notifying? ==> LoopFree(MarkerStep(s, UsbLocks))
  {
    hide Waited, Bumped;
  }

  /** A host resume always starts a generation of its own, pending from its first attempt. */
  lemma ResumeStartsAGeneration(s: System)
    ensures var t := Step(Step(s, HostResume), ResumeLocks);
            t.core == Core(Recovery(s.core.recovery.generation + 1, 0, Pending, Some(HostResumed)), 0, false, s.core.stopping)
  {
    hide LoopStep;
  }

  /** A lost and returned USB device starts one exactly when no host-resume recovery is under way. */
  lemma UsbReturnStartsAGeneration(s: System)
    requires LoopFree(s) && !s.core.usbPending
    ensures var t := Step(Step(Step(s, UsbLost), UsbBack), UsbLocks);
            t.core == if s.core.recovery.trigger == Some(HostResumed)
                         && s.core.recovery.state in {Pending, WaitingForDevice, RebuildingMappings, Failed}
                      then s.core
                      else Core(Recovery(s.core.recovery.generation + 1, 0, Pending, Some(UsbReconnected)), 0, false, s.core.stopping)
  {
    hide Finished, Began, Expired, Waited;
  }

  /** Control that authenticates on a failed recovery puts it back to awaiting control, in a generation
      of its own, where its authentication completes it. */
  lemma AuthenticatedRearmRecovers(s: System)
    requires LoopFree(s) && !s.core.stopping && s.core.recovery.state == Failed && s.core.recovery.trigger.Some?
    ensures var t := Step(s, AuthenticatedRearm);
            && t.core.recovery == Recovery(s.core.recovery.generation + 1, 1, AwaitingControl, s.core.recovery.trigger)
            && 0 in t.stores && Step(t, AuthenticatedControl).core.recovery.state == Recovered
  {
  }

  /** Stop holds: once its flag is set no monitor pass is entered and no rearm task passes its check, so
      that at most the pass already past its reads still begins a rebuild. */
  lemma {:induction false} StopEndsTheRebuilds(s: System, es: seq<Event>)
    ensures var t := Step(s, Stop);
            && Run(t, es).core.stopping
            && Rebuilds(t, es) + (if Run(t, es).loop == Checked(true) then 1 else 0) <= (if s.loop == Checked(true) then 1 else 0)
  {
    hide MarkerStep, LoopStep, BeginsRebuild;
    var t := Step(s, Stop);
    if es == [] {
      StopSetsTheFlag(s);
    } else {
      StopEndsTheRebuilds(s, es[..|es| - 1]);
      StoppedStep(Run(t, es[..|es| - 1]), es[|es| - 1]);
    }
  }

  lemma StopSetsTheFlag(s: System)
    ensures Step(s, Stop) == s.(core := s.core.(stopping := true))
  {
    hide MarkerStep;
  }

  lemma StoppedStep(s: System, e: Event)
    requires s.core.stopping
    ensures Step(s, e).core.stopping
    ensures Step(s, e).loop == Checked(true) || BeginsRebuild(s, e) ==> s.loop == Checked(true)
    ensures BeginsRebuild(s, e) ==> Step(s, e).loop != Checked(true)
  {
    hide MarkerStep, LoopStep;
    if TouchesMarker(e) { StoppedMarkerStep(s, e); } else { StoppedLoopStep(s, e); }
  }

  lemma StoppedMarkerStep(s: System, e: Event)
    requires s.core.stopping && TouchesMarker(e)
    ensures MarkerStep(s, e).core.stopping && (MarkerStep(s, e).loop == Checked(true) ==> s.loop == Checked(true))
  {
  }

  lemma StoppedLoopStep(s: System, e: Event)
    requires s.core.stopping && !TouchesMarker(e)
    ensures LoopStep(s, e).core.stopping && (LoopStep(s, e).loop == Checked(true) ==> s.loop == Checked(true))
    ensures BeginsRebuild(s, e) ==> LoopStep(s, e).loop != Checked(true)
  {
  }

  // ---------------------------------------------------------- the source's object

  class AdbHealthMonitor {
    var stopping: bool
    var autoRearm: nat
    var usbPending: bool
    var generation: nat
    var attempt: nat
    var state: RecoveryState
    var trigger: Option<Trigger>

    function Model(): Core
      reads this
    {
      Core(Recovery(generation, attempt, state, trigger), autoRearm, usbPending, stopping)
    }

    constructor ()
      ensures Model() == FRESH
    {
      stopping, autoRearm, usbPending := false, 0, false;
      generation, attempt, state, trigger := 0, 0, Idle, None;
    }

    method NotifyTransportRecovery(why: Trigger) returns (g: nat)
      modifies this
      ensures Model() == Notified(old(Model()), why) && g == generation
    {
      autoRearm := 0;
      generation, attempt, state, trigger := generation + 1, 0, Pending, Some(why);
      return generation;
    }

    method NotifyHostResume() returns (g: nat)
      modifies this
      ensures Model() == Notified(old(Model()).(usbPending := false), HostResumed) && g == generation
    {
      usbPending := false;
      g := NotifyTransportRecovery(HostResumed);
    }

    method NotifyUsbReconnectedIfNeeded() returns (notified: bool)
      modifies this
      ensures notified == old(usbPending)
      ensures Model() == if notified then Notified(old(Model()).(usbPending := false), UsbReconnected) else old(Model())
    {
      if !usbPending { return false; }
      usbPending := false;
      var _ := NotifyTransportRecovery(UsbReconnected);
      return true;
    }

    method NoteUsbDisconnected()
      modifies this
      ensures Model() == if NotesUsbLoss(old(Model())) then old(Model()).(usbPending := true) else old(Model())
    {
      if trigger != Some(HostResumed) || !RequiresRecovery(Recovery(generation, attempt, state, trigger)) {
        usbPending := true;
      }
    }

    method RearmFailedTransport(g: nat, why: Trigger) returns (next: Option<nat>)
      modifies this
      ensures Model() == if CanRearm(old(Model()), g) then Rearmed(old(Model()), why) else old(Model())
      ensures next == if CanRearm(old(Model()), g) then Some(g + 1) else None
    {
      if stopping || autoRearm == g { return None; }
      if generation != g || state != Failed { return None; }
      generation, attempt, state, trigger := generation + 1, 0, Pending, Some(why);
      autoRearm := generation;
      return Some(generation);
    }

    method RearmFromAuthenticatedControl() returns (rearmed: bool)
      modifies this
      ensures rearmed == CanRearmAuthenticated(old(Model()))
      ensures Model() == if rearmed then RearmedAuthenticated(old(Model())) else old(Model())
    {
      if stopping || state != Failed || trigger == None { return false; }
      generation, attempt, state := generation + 1, 1, AwaitingControl;
      autoRearm := 0;
      return true;
    }

    method WaitForRecoveryDevice()
      modifies this
      ensures Model() == Waited(old(Model()))
    {
      attempt, state := 0, WaitingForDevice;
    }

    /** The trigger is read after the fields have changed, as in the source. */
    method BeginAttempt() returns (begun: Option<(nat, nat, Trigger)>)
      modifies this
      ensures Model() == if CanBegin(old(Model())) then Began(old(Model())) else old(Model())
      ensures begun == if CanBegin(old(Model())) && trigger.Some? then Some((generation, attempt, trigger.value)) else None
    {
      if (state != Pending && state != WaitingForDevice) || attempt >= MAX_ATTEMPTS { return None; }
      attempt, state := attempt + 1, RebuildingMappings;
      if trigger == None { return None; }
      return Some((generation, attempt, trigger.value));
    }

    method FinishAttempt(g: nat, succeeded: bool) returns (retry: bool)
      modifies this
      ensures Model() == Finished(old(Model()), g, succeeded)
      ensures retry == (!succeeded && WillRetry(old(Model()), g))
    {
      retry := false;
      if generation != g { return; }
      if succeeded {
        state := AwaitingControl;
      } else if attempt < MAX_ATTEMPTS {
        state, retry := Pending, true;
      } else {
        state := Failed;
      }
    }

    method CompleteAuthenticated() returns (completed: bool)
      modifies this
      ensures completed == CanComplete(old(Model()))
      ensures Model() == if completed then Completed(old(Model())) else old(Model())
    {
      if state != AwaitingControl || trigger == None { return false; }
      state := Recovered;
      return true;
    }

    method ExpireControl(g: nat, a: nat) returns (retry: Option<bool>)
      modifies this
      ensures Model() == if CanExpire(old(Model()), g, a) then Expired(old(Model())) else old(Model())
      ensures retry == if CanExpire(old(Model()), g, a) then Some(old(attempt) < MAX_ATTEMPTS) else None
    {
      if generation != g || attempt != a || state != AwaitingControl { return None; }
      if attempt < MAX_ATTEMPTS {
        state := Pending;
        return Some(true);
      }
      state := Failed;
      return Some(false);
    }
  }
}
