/** The authenticated control lane (control.rs): every interleaving of connection handlers,
    replacements, stop commands, deadlines and exits over one shared lifecycle.

    A step is one section the source runs under its state lock, or one local action of a
    handler between two await points. Exits through `?` skip the cleanup and are their own
    steps. An event that its handler could not take in its phase changes nothing, so a run
    is any sequence of events. */
module ControlLane {
  import opened Base
  import opened Lifecycle

  type Command = nat

  const LANE_CAPACITY: nat := 4
  const TRANSPORT_LOST_REASON := "control transport lost; VPN remains active"
  const STOP_TIMED_OUT_REASON := "explicit stop timed out; VPN state is unverified"
  const STOP_LOST_REASON := "control transport was lost during explicit stop; VPN state is unverified"
  const PEER_ERROR_REASON := "Android peer reported an error"

  /** Where a handler stands between two steps. */
  datatype Phase =
    | Selecting                    // at the select; cancellation may come after it was polled
    | Replying                     // writing HELLO_ACK or the answer to a frame
    | Holding(cmd: Command)        // took a command off the lane, state not locked yet
    | WritingStop                  // lifecycle is Stopping, STOP not on the wire yet
    | FailingLifecycle             // the deadline answered the stop; lifecycle not failed yet
    | Requeueing(cmd: Command)     // superseded, putting its command back
    | Leaving                      // out of the loop, cleanup not run yet
    | Gone

  datatype Handler = Handler(epoch: nat, phase: Phase, pending: Option<Command>, stopWritten: bool)

  datatype Answer = Answer(cmd: Command, ok: bool)

  datatype Lane = Lane(
    session: SessionId,
    lifecycle: Machine,
    active: Option<nat>,          // epoch of the connection that owns the lane
    generation: nat,              // last epoch handed out
    handlers: seq<Handler>,
    cancelled: set<nat>,          // epochs that were told to leave
    queue: seq<Command>,
    submitted: nat,               // commands 0..submitted were sent
    answers: seq<Answer>)

  datatype Incoming =
    | StaleSession | Started(valid: bool, wake: bool) | Beat(valid: bool) | StoppedFrame | StatusFrame
    | MetricsFrame | SuspendFrame(valid: bool) | ErrorFrame | Unexpected | Closed

  datatype RequeueOutcome = Requeued | Refused

  datatype Event =
    | Submit
    | Hello
    | SeeCancel(h: nat)
    | HeartbeatTick(h: nat, now: nat)
    | FrameIn(h: nat, frame: Incoming, now: nat)
    | ReplyWritten(h: nat, ok: bool)
    | TakeCommand(h: nat)
    | Decide(h: nat, expired: bool)
    | StopWritten(h: nat, ok: bool)
    | StopDeadline(h: nat)
    | FailAfterDeadline(h: nat)
    | Requeue(h: nat, outcome: RequeueOutcome)
    | Cleanup(h: nat)
    | ResetTransport
    | CarrierLost(why: string)

  function Start(id: SessionId): Lane {
    Lane(id, Apply(INITIAL, BeginStart(id)), None, 0, [], {}, [], 0, [])
  }

  predicate Current(s: Lane, h: nat)
    requires h < |s.handlers|
  {
    s.active == Some(s.handlers[h].epoch)
  }

  function Put(s: Lane, h: nat, x: Handler): Lane
    requires h < |s.handlers|
  {
    s.(handlers := s.handlers[h := x])
  }

  function Move(s: Lane, h: nat, p: Phase): Lane
    requires h < |s.handlers|
  {
    Put(s, h, s.handlers[h].(phase := p))
  }

  /** Where a handler goes that comes back to its select: cancellation is polled first, so a handler
      that was told to leave does so before it looks at any other arm. */
  function Back(s: Lane, h: nat): Phase
    requires h < |s.handlers|
  {
    if s.handlers[h].epoch in s.cancelled then Leaving else Selecting
  }

  function AnswerTo(s: Lane, c: Command, ok: bool): Lane { s.(answers := s.answers + [Answer(c, ok)]) }

  /** Dropping a handler answers its pending stop (`Drop for PendingStop`). */
  function Vanish(s: Lane, h: nat): Lane
    requires h < |s.handlers|
  {
    var x := s.handlers[h];
    var s' := Put(s, h, x.(phase := Gone, pending := None, stopWritten := false));
    if x.pending.Some? then AnswerTo(s', x.pending.value, false) else s'
  }

  function Admit(s: Lane): Lane {
    if s.lifecycle.state == Stopping then s else
    var epoch := s.generation + 1;
    s.(generation := epoch,
       active := Some(epoch),
       handlers := s.handlers + [Handler(epoch, Replying, None, false)],
       cancelled := if s.active.Some? then s.cancelled + {s.active.value} else s.cancelled)
  }

  /** A lifecycle transition whose refusal leaves through `?`, without cleanup. */
  function TryTransition(s: Lane, h: nat, t: Transition, next: Phase): Lane
    requires h < |s.handlers|
  {
    if s.lifecycle.state == Stopping then Move(s, h, next)
    else if !Accepts(s.lifecycle, t) then Vanish(s, h)
    else Move(s.(lifecycle := Apply(s.lifecycle, t)), h, next)
  }

  function OnFrame(s: Lane, h: nat, f: Incoming, now: nat): Lane
    requires h < |s.handlers|
  {
    var x := s.handlers[h];
    if f.StaleSession? then Vanish(s, h)
    else if f.Closed? || f.Unexpected? then Move(s, h, Leaving)
    else if (f.Started? || f.Beat? || f.SuspendFrame?) && !f.valid then Move(s, h, Leaving)
    else if !Current(s, h) then Move(s, h, Leaving)
    else match f
      case Started(_, wake) =>
        TryTransition(s, h, PeerStarted(s.session, now),
                      if wake && s.lifecycle.state != Stopping then Replying else Back(s, h))
      case Beat(_) => TryTransition(s, h, Heartbeat(s.session, now), Replying)
      case SuspendFrame(_) => TryTransition(s, h, PeerSuspended(s.session), Replying)
      case StoppedFrame =>
        if x.pending == None || s.lifecycle.state != Stopping then Move(s, h, Leaving)
        else AnswerTo(Put(s.(lifecycle := Apply(s.lifecycle, StoppedByPeer)), h,
                          x.(phase := Back(s, h), pending := None, stopWritten := false)),
                      x.pending.value, true)
      case ErrorFrame => Move(s.(lifecycle := Apply(s.lifecycle, Fail(PEER_ERROR_REASON))), h, Back(s, h))
      case StatusFrame => Move(s, h, Replying)
      case _ => Move(s, h, Back(s, h))
  }

  function OnDecide(s: Lane, h: nat, expired: bool): Lane
    requires h < |s.handlers| && s.handlers[h].phase.Holding?
  {
    var x := s.handlers[h];
    var c := x.phase.cmd;
    if expired || x.pending.Some? then AnswerTo(Move(s, h, Back(s, h)), c, false)
    else if !Current(s, h) then Move(s, h, Requeueing(c))
    else if !Accepts(s.lifecycle, BeginStop) then AnswerTo(Move(s, h, Back(s, h)), c, false)
    else Put(s.(lifecycle := Apply(s.lifecycle, BeginStop)), h,
             x.(phase := WritingStop, pending := Some(c), stopWritten := false))
  }

  function OnCleanup(s: Lane, h: nat): Lane
    requires h < |s.handlers|
  {
    if !Current(s, h) then Vanish(s, h)
    else
      var why := if s.handlers[h].pending.Some? then Fail(STOP_LOST_REASON) else TransportLost(TRANSPORT_LOST_REASON);
      Vanish(s.(active := None, lifecycle := Apply(s.lifecycle, why)), h)
  }

  function Step(s: Lane, e: Event): Lane {
    match e
    case Submit =>
      if |s.queue| < LANE_CAPACITY then s.(queue := s.queue + [s.submitted], submitted := s.submitted + 1) else s
    case Hello => Admit(s)
    case ResetTransport => if s.active.Some? then s.(cancelled := s.cancelled + {s.active.value}) else s
    case CarrierLost(why) => s.(lifecycle := Apply(s.lifecycle, TransportLost(why)))
    case _ => if e.h < |s.handlers| then HandlerStep(s, e) else s
  }

  function HandlerStep(s: Lane, e: Event): Lane
    requires !e.Submit? && !e.Hello? && !e.ResetTransport? && !e.CarrierLost? && e.h < |s.handlers|
  {
    var x := s.handlers[e.h];
    match e
    case SeeCancel(h) =>
      if x.phase == Selecting && x.epoch in s.cancelled then Move(s, h, Leaving) else s
    case HeartbeatTick(h, now) =>
      if x.phase != Selecting then s
      else if !Current(s, h) then Move(s, h, Leaving)
      else Move(s.(lifecycle := Apply(s.lifecycle, Tick(now))), h, Back(s, h))
    case FrameIn(h, f, now) => if x.phase == Selecting then OnFrame(s, h, f, now) else s
    case ReplyWritten(h, ok) =>
      if x.phase != Replying then s else if ok then Move(s, h, Back(s, h)) else Vanish(s, h)
    case TakeCommand(h) =>
      if x.phase == Selecting && s.queue != [] then Move(s.(queue := s.queue[1..]), h, Holding(s.queue[0])) else s
    case Decide(h, expired) => if x.phase.Holding? then OnDecide(s, h, expired) else s
    case StopWritten(h, ok) =>
      if x.phase != WritingStop then s
      else if ok then Put(s, h, x.(phase := Back(s, h), stopWritten := true)) else Vanish(s, h)
    case StopDeadline(h) =>
      if x.phase == Selecting && x.pending.Some?
      then AnswerTo(Put(s, h, x.(phase := FailingLifecycle, pending := None, stopWritten := false)), x.pending.value, false)
      else s
    case FailAfterDeadline(h) =>
      if x.phase == FailingLifecycle
      then Move(s.(lifecycle := Apply(s.lifecycle, Fail(STOP_TIMED_OUT_REASON))), h, Back(s, h)) else s
    case Requeue(h, outcome) =>
      if !x.phase.Requeueing? then s
      else if outcome.Refused? then AnswerTo(Move(s, h, Leaving), x.phase.cmd, false)
      else if |s.queue| < LANE_CAPACITY then Move(s.(queue := s.queue + [x.phase.cmd]), h, Leaving)
      else s
    case Cleanup(h) => if x.phase == Leaving then OnCleanup(s, h) else s
  }

  function Run(s: Lane, es: seq<Event>): Lane {
    if es == [] then s else Step(Run(s, es[..|es| - 1]), es[|es| - 1])
  }

  // ---------------------------------------------------------------- invariant

  ghost predicate HandlerOk(x: Handler) {
    && (x.pending.Some? ==> x.phase != FailingLifecycle && x.phase != Gone
                            && (x.stopWritten <==> x.phase != WritingStop))
    && (x.phase == WritingStop ==> x.pending.Some?)
  }

  /** A lifecycle in Stopping belongs to the connection that began the stop: it still holds
      the stop, is about to fail the lifecycle, or vanished without cleanup. */
  ghost predicate StopIsOwned(s: Lane) {
    s.lifecycle.state == Stopping ==>
      && s.active.Some? && 1 <= s.active.value <= |s.handlers|
      && var x := s.handlers[s.active.value - 1];
         Owns(x)
  }

  ghost predicate Inv(s: Lane) {
    && s.generation == |s.handlers|
    && (forall i :: 0 <= i < |s.handlers| ==> s.handlers[i].epoch == i + 1 && HandlerOk(s.handlers[i]))
    && (s.active.Some? ==> 1 <= s.active.value <= |s.handlers|)
    && StopIsOwned(s)
  }

  predicate OfHandler(s: Lane, e: Event) {
    !e.Submit? && !e.Hello? && !e.ResetTransport? && !e.CarrierLost? && e.h < |s.handlers|
  }

  /** What any handler step may touch: its own handler, at most one new answer, the queue's
      ends, and the active slot only by clearing it. */
  ghost predicate Local(s: Lane, h: nat, t: Lane) {
    && h < |s.handlers| && |t.handlers| == |s.handlers|
    && t.handlers == s.handlers[h := t.handlers[h]]
    && t.handlers[h].epoch == s.handlers[h].epoch
    && t.session == s.session && t.generation == s.generation && t.submitted == s.submitted
    && (t.active == s.active || (Current(s, h) && t.active == None && t.lifecycle.state != Stopping))
    && HandlerOk(t.handlers[h])
    && (t.lifecycle.state == Stopping && s.lifecycle.state != Stopping ==> Current(s, h) && t.handlers[h].pending.Some?)
    && (s.lifecycle.state == Stopping && t.lifecycle.state == Stopping && Owns(s.handlers[h]) ==> Owns(t.handlers[h]))
  }

  ghost predicate Owns(x: Handler) { x.pending.Some? || x.phase == FailingLifecycle || x.phase == Gone }

  lemma OnFrameIsLocal(s: Lane, h: nat, f: Incoming, now: nat)
    requires h < |s.handlers| && HandlerOk(s.handlers[h]) && s.handlers[h].phase == Selecting
    requires StopIsOwned(s)
    ensures Local(s, h, OnFrame(s, h, f, now))
  {
    hide Apply, Accepts;
    OnlyBeginStopStops(s.lifecycle, PeerStarted(s.session, now));
    OnlyBeginStopStops(s.lifecycle, Heartbeat(s.session, now));
    OnlyBeginStopStops(s.lifecycle, PeerSuspended(s.session));
    OnlyBeginStopStops(s.lifecycle, StoppedByPeer);
    OnlyBeginStopStops(s.lifecycle, Fail(PEER_ERROR_REASON));
  }

  lemma OnlyBeginStopStops(m: Machine, t: Transition)
    ensures Apply(m, t).state == Stopping && !t.BeginStop? ==> m.state == Stopping
    ensures t.StoppedByPeer? || t.Fail? ==> Apply(m, t).state != Stopping
  {
  }

  lemma OnDecideIsLocal(s: Lane, h: nat, expired: bool)
    requires h < |s.handlers| && HandlerOk(s.handlers[h]) && s.handlers[h].phase.Holding?
    ensures Local(s, h, OnDecide(s, h, expired))
  {
  }

  lemma OnCleanupIsLocal(s: Lane, h: nat)
    requires h < |s.handlers| && HandlerOk(s.handlers[h]) && s.handlers[h].phase == Leaving
    requires s.handlers[h].epoch == h + 1 && StopIsOwned(s)
    ensures Local(s, h, OnCleanup(s, h))
  {
  }

  lemma FrameIsLocal(s: Lane, h: nat, f: Incoming, now: nat)
    requires h < |s.handlers| && HandlerOk(s.handlers[h]) && StopIsOwned(s)
    ensures Local(s, h, HandlerStep(s, FrameIn(h, f, now)))
  {
    hide OnFrame;
    if s.handlers[h].phase == Selecting { OnFrameIsLocal(s, h, f, now); }
  }

  lemma DecideIsLocal(s: Lane, h: nat, expired: bool)
    requires h < |s.handlers| && HandlerOk(s.handlers[h])
    ensures Local(s, h, HandlerStep(s, Decide(h, expired)))
  {
    hide OnDecide;
    if s.handlers[h].phase.Holding? { OnDecideIsLocal(s, h, expired); }
  }

  lemma CleanupIsLocal(s: Lane, h: nat)
    requires h < |s.handlers| && HandlerOk(s.handlers[h]) && s.handlers[h].epoch == h + 1 && StopIsOwned(s)
    ensures Local(s, h, HandlerStep(s, Cleanup(h)))
  {
    hide OnCleanup;
    if s.handlers[h].phase == Leaving { OnCleanupIsLocal(s, h); }
  }

  lemma WritesAreLocal(s: Lane, e: Event)
    requires OfHandler(s, e) && HandlerOk(s.handlers[e.h]) && (e.ReplyWritten? || e.StopWritten?)
    ensures Local(s, e.h, HandlerStep(s, e))
  {
  }

  lemma DeadlinesAreLocal(s: Lane, e: Event)
    requires OfHandler(s, e) && HandlerOk(s.handlers[e.h]) && (e.StopDeadline? || e.FailAfterDeadline?)
    ensures Local(s, e.h, HandlerStep(s, e))
  {
  }

  lemma QueueMovesAreLocal(s: Lane, e: Event)
    requires OfHandler(s, e) && HandlerOk(s.handlers[e.h]) && (e.TakeCommand? || e.Requeue?)
    ensures Local(s, e.h, HandlerStep(s, e))
  {
    hide Apply, Accepts;
  }

  lemma TicksAreLocal(s: Lane, e: Event)
    requires OfHandler(s, e) && HandlerOk(s.handlers[e.h]) && (e.SeeCancel? || e.HeartbeatTick?)
    ensures Local(s, e.h, HandlerStep(s, e))
  {
    hide Apply;
    if e.HeartbeatTick? { OnlyBeginStopStops(s.lifecycle, Tick(e.now)); }
  }

  lemma HandlerStepIsLocal(s: Lane, e: Event)
    requires Inv(s) && OfHandler(s, e)
    ensures Local(s, e.h, Step(s, e))
  {
    var x := s.handlers[e.h];
    assert HandlerOk(x) && x.epoch == e.h + 1;
    assert Local(s, e.h, HandlerStep(s, e)) by {
      hide Apply, Accepts;
      match e
      case FrameIn(h, f, now) => FrameIsLocal(s, h, f, now);
      case Decide(h, expired) => DecideIsLocal(s, h, expired);
      case Cleanup(h) => CleanupIsLocal(s, h);
      case ReplyWritten(_, _) | StopWritten(_, _) => WritesAreLocal(s, e);
      case StopDeadline(_) | FailAfterDeadline(_) => DeadlinesAreLocal(s, e);
      case TakeCommand(_) | Requeue(_, _) => QueueMovesAreLocal(s, e);
      case SeeCancel(_) | HeartbeatTick(_, _) => TicksAreLocal(s, e);
    }
  }

  lemma LocalKeepsInv(s: Lane, h: nat, t: Lane)
    requires Inv(s) && Local(s, h, t)
    ensures Inv(t)
  {
    forall i | 0 <= i < |t.handlers| ensures t.handlers[i].epoch == i + 1 && HandlerOk(t.handlers[i]) {
      assert t.handlers[i] == if i == h then t.handlers[h] else s.handlers[i];
    }
  }

  lemma StepKeepsInv(s: Lane, e: Event)
    requires Inv(s)
    ensures Inv(Step(s, e))
  {
    if OfHandler(s, e) {
      HandlerStepIsLocal(s, e);
      LocalKeepsInv(s, e.h, Step(s, e));
    }
  }

  lemma {:induction false} ReachableInv(id: SessionId, es: seq<Event>)
    ensures Inv(Run(Start(id), es))
  {
    if es != [] {
      ReachableInv(id, es[..|es| - 1]);
      StepKeepsInv(Run(Start(id), es[..|es| - 1]), es[|es| - 1]);
    }
  }

  // ------------------------------------------------- every command in one place

  function Holds(x: Handler, c: Command): nat {
    (if x.pending == Some(c) then 1 else 0)
    + (if (x.phase.Holding? || x.phase.Requeueing?) && x.phase.cmd == c then 1 else 0)
  }

  function InHandlers(hs: seq<Handler>, c: Command): nat {
    if hs == [] then 0 else InHandlers(hs[..|hs| - 1], c) + Holds(hs[|hs| - 1], c)
  }

  function InQueue(q: seq<Command>, c: Command): nat { multiset(q)[c] }

  function InAnswers(xs: seq<Answer>, c: Command): nat {
    if xs == [] then 0 else InAnswers(xs[..|xs| - 1], c) + if xs[|xs| - 1].cmd == c then 1 else 0
  }

  function Places(s: Lane, c: Command): nat {
    InQueue(s.queue, c) + InHandlers(s.handlers, c) + InAnswers(s.answers, c)
  }

  lemma {:induction false} InHandlersUpdate(hs: seq<Handler>, h: nat, x: Handler, c: Command)
    requires h < |hs|
    ensures InHandlers(hs[h := x], c) == InHandlers(hs, c) - Holds(hs[h], c) + Holds(x, c)
    decreases |hs|
  {
    var n := |hs| - 1;
    if h == n {
      assert hs[h := x][..n] == hs[..n];
    } else {
      assert hs[h := x][..n] == hs[..n][h := x];
      InHandlersUpdate(hs[..n], h, x, c);
    }
  }

  lemma InAnswersSnoc(xs: seq<Answer>, a: Answer, c: Command)
    ensures InAnswers(xs + [a], c) == InAnswers(xs, c) + if a.cmd == c then 1 else 0
  {
    assert (xs + [a])[..|xs|] == xs;
  }

  lemma InHandlersSnoc(hs: seq<Handler>, x: Handler, c: Command)
    ensures InHandlers(hs + [x], c) == InHandlers(hs, c) + Holds(x, c)
  {
    assert (hs + [x])[..|hs|] == hs;
  }

  lemma QueuePop(q: seq<Command>, c: Command)
    requires q != []
    ensures InQueue(q, c) == InQueue(q[1..], c) + if q[0] == c then 1 else 0
  {
    assert q == [q[0]] + q[1..];
  }

  /** A handler step only passes `c` on between the queue, its own handler and the answers. */
  ghost predicate PassesOn(s: Lane, h: nat, t: Lane, c: Command)
    requires h < |s.handlers| && h < |t.handlers|
  {
    var before, after := InQueue(s.queue, c) + Holds(s.handlers[h], c), InQueue(t.queue, c) + Holds(t.handlers[h], c);
    if |t.answers| == |s.answers| then t.answers == s.answers && after == before
    else
      && |t.answers| == |s.answers| + 1 && t.answers[..|s.answers|] == s.answers
      && after + (if t.answers[|s.answers|].cmd == c then 1 else 0) == before
  }

  lemma OnFramePassesOn(s: Lane, h: nat, f: Incoming, now: nat, c: Command)
    requires h < |s.handlers| && s.handlers[h].phase == Selecting
    ensures |OnFrame(s, h, f, now).handlers| == |s.handlers| && PassesOn(s, h, OnFrame(s, h, f, now), c)
  {
    hide Apply, Accepts, InQueue;
  }

  lemma OnDecidePassesOn(s: Lane, h: nat, expired: bool, c: Command)
    requires h < |s.handlers| && s.handlers[h].phase.Holding?
    ensures |OnDecide(s, h, expired).handlers| == |s.handlers| && PassesOn(s, h, OnDecide(s, h, expired), c)
  {
  }

  lemma RequeuePassesOn(s: Lane, h: nat, outcome: RequeueOutcome, c: Command)
    requires h < |s.handlers|
    ensures |Step(s, Requeue(h, outcome)).handlers| == |s.handlers| && PassesOn(s, h, Step(s, Requeue(h, outcome)), c)
  {
  }

  lemma CleanupPassesOn(s: Lane, h: nat, c: Command)
    requires h < |s.handlers| && s.handlers[h].phase == Leaving
    ensures |OnCleanup(s, h).handlers| == |s.handlers| && PassesOn(s, h, OnCleanup(s, h), c)
  {
  }

  lemma TakePassesOn(s: Lane, h: nat, c: Command)
    requires h < |s.handlers|
    ensures |Step(s, TakeCommand(h)).handlers| == |s.handlers| && PassesOn(s, h, Step(s, TakeCommand(h)), c)
  {
    if s.queue != [] { QueuePop(s.queue, c); }
  }

  lemma WritesPassOn(s: Lane, e: Event, c: Command)
    requires OfHandler(s, e) && (e.ReplyWritten? || e.StopWritten?)
    ensures |Step(s, e).handlers| == |s.handlers| && PassesOn(s, e.h, Step(s, e), c)
  {
  }

  lemma HandlerStepPassesOn(s: Lane, e: Event, c: Command)
    requires OfHandler(s, e)
    ensures |Step(s, e).handlers| == |s.handlers| && PassesOn(s, e.h, Step(s, e), c)
  {
    hide OnFrame, OnDecide, OnCleanup, Apply, Accepts;
    var x := s.handlers[e.h];
    match e
    case FrameIn(h, f, now) => if x.phase == Selecting { OnFramePassesOn(s, h, f, now, c); }
    case Decide(h, expired) => if x.phase.Holding? { OnDecidePassesOn(s, h, expired, c); }
    case TakeCommand(h) => TakePassesOn(s, h, c);
    case Requeue(h, outcome) => RequeuePassesOn(s, h, outcome, c);
    case Cleanup(h) => if x.phase == Leaving { CleanupPassesOn(s, h, c); }
    case ReplyWritten(_, _) => WritesPassOn(s, e, c);
    case StopWritten(_, _) => WritesPassOn(s, e, c);
    case _ =>
  }

  lemma PassingOnConserves(s: Lane, h: nat, t: Lane, c: Command)
    requires h < |s.handlers| && |t.handlers| == |s.handlers| && t.handlers == s.handlers[h := t.handlers[h]]
    requires PassesOn(s, h, t, c)
    ensures Places(t, c) == Places(s, c)
  {
    InHandlersUpdate(s.handlers, h, t.handlers[h], c);
    if |t.answers| > |s.answers| {
      assert t.answers == s.answers + [t.answers[|s.answers|]];
      InAnswersSnoc(s.answers, t.answers[|s.answers|], c);
    }
  }

  /** No step creates, duplicates or loses a command; only Submit adds one, the fresh one. */
  lemma StepConservesCommands(s: Lane, e: Event, c: Command)
    requires Inv(s)
    ensures s.submitted <= Step(s, e).submitted <= s.submitted + 1
    ensures Places(Step(s, e), c) == Places(s, c) + if s.submitted <= c < Step(s, e).submitted then 1 else 0
  {
    if OfHandler(s, e) {
      HandlerStepIsLocal(s, e);
      HandlerStepPassesOn(s, e, c);
      PassingOnConserves(s, e.h, Step(s, e), c);
    } else if e.Hello? {
      InHandlersSnoc(s.handlers, Handler(s.generation + 1, Replying, None, false), c);
    }
  }

  /** Over every run, each submitted stop command is in exactly one place: on the lane, with
      exactly one handler, or answered exactly once; nothing else is anywhere. */
  lemma {:induction false} EveryCommandIsInOnePlace(id: SessionId, es: seq<Event>, c: Command)
    ensures Places(Run(Start(id), es), c) == if c < Run(Start(id), es).submitted then 1 else 0
  {
    if es != [] {
      var before, e := Run(Start(id), es[..|es| - 1]), es[|es| - 1];
      EveryCommandIsInOnePlace(id, es[..|es| - 1], c);
      ReachableInv(id, es[..|es| - 1]);
      StepConservesCommands(before, e, c);
    }
  }

  lemma {:induction false} TwoAnswersCountTwice(xs: seq<Answer>, i: nat, j: nat)
    requires i < j < |xs| && xs[i].cmd == xs[j].cmd
    ensures InAnswers(xs, xs[i].cmd) >= 2
    decreases |xs|
  {
    var n := |xs| - 1;
    if j < n {
      TwoAnswersCountTwice(xs[..n], i, j);
    } else {
      AnAnswerCounts(xs[..n], i);
    }
  }

  lemma {:induction false} AnAnswerCounts(xs: seq<Answer>, i: nat)
    requires i < |xs|
    ensures InAnswers(xs, xs[i].cmd) >= 1
    decreases |xs|
  {
    if i < |xs| - 1 {
      AnAnswerCounts(xs[..|xs| - 1], i);
    }
  }

  /** Each stop command is answered at most once, in any run and through any exit. */
  lemma StopIsAnsweredAtMostOnce(id: SessionId, es: seq<Event>, i: nat, j: nat)
    requires i < j < |Run(Start(id), es).answers|
    ensures Run(Start(id), es).answers[i].cmd != Run(Start(id), es).answers[j].cmd
  {
    var xs := Run(Start(id), es).answers;
    if xs[i].cmd == xs[j].cmd {
      TwoAnswersCountTwice(xs, i, j);
      EveryCommandIsInOnePlace(id, es, xs[i].cmd);
    }
  }

  lemma {:induction false} NobodyHolds(hs: seq<Handler>, c: Command)
    requires forall i :: 0 <= i < |hs| ==> Holds(hs[i], c) == 0
    ensures InHandlers(hs, c) == 0
  {
    if hs != [] {
      NobodyHolds(hs[..|hs| - 1], c);
    }
  }

  lemma {:induction false} AnsweredSomewhere(xs: seq<Answer>, c: Command) returns (i: nat)
    requires InAnswers(xs, c) >= 1
    ensures i < |xs| && xs[i].cmd == c
  {
    if xs[|xs| - 1].cmd == c { i := |xs| - 1; } else { i := AnsweredSomewhere(xs[..|xs| - 1], c); }
  }

  /** A handler that ended holds nothing, so once every handler has ended and the lane is
      empty, every stop that was ever submitted has been answered. */
  lemma EndedHandlersLeaveNothingUnanswered(id: SessionId, es: seq<Event>, c: Command) returns (i: nat)
    requires var s := Run(Start(id), es);
             c < s.submitted && s.queue == [] && forall h :: 0 <= h < |s.handlers| ==> s.handlers[h].phase == Gone
    ensures i < |Run(Start(id), es).answers| && Run(Start(id), es).answers[i].cmd == c
  {
    var s := Run(Start(id), es);
    ReachableInv(id, es);
    EveryCommandIsInOnePlace(id, es, c);
    NobodyHolds(s.handlers, c);
    i := AnsweredSomewhere(s.answers, c);
  }

  // -------------------------------------------------------- step-level promises

  /** The current connection, waiting with `c` pending, receives STOPPED while Stopping. */
  predicate Acknowledges(s: Lane, e: Event, c: Command) {
    && e.FrameIn? && e.frame.StoppedFrame? && e.h < |s.handlers| && Current(s, e.h)
    && s.handlers[e.h].phase == Selecting && s.handlers[e.h].pending == Some(c) && s.lifecycle.state == Stopping
  }

  /** A stop is answered Ok by exactly the step in which the current connection, holding that
      stop, receives STOPPED in Stopping; STOP was on the wire, and Stopped is reached. */
  lemma OkMeansAcknowledgedStop(s: Lane, e: Event, c: Command)
    requires Inv(s)
    ensures Step(s, e).answers == s.answers + [Answer(c, true)] <==> Acknowledges(s, e, c)
    ensures Acknowledges(s, e, c) ==> s.handlers[e.h].stopWritten && Step(s, e).lifecycle.state == Stopped
  {
    hide Step;
    if Acknowledges(s, e, c) { AcknowledgementIsAnswered(s, e, c); }
    if Step(s, e).answers == s.answers + [Answer(c, true)] { OkIsAcknowledged(s, e, c); }
  }

  lemma AcknowledgementIsAnswered(s: Lane, e: Event, c: Command)
    requires Inv(s) && Acknowledges(s, e, c)
    ensures Step(s, e).answers == s.answers + [Answer(c, true)]
    ensures s.handlers[e.h].stopWritten && Step(s, e).lifecycle.state == Stopped
  {
    assert HandlerOk(s.handlers[e.h]);
  }

  lemma OkIsAcknowledged(s: Lane, e: Event, c: Command)
    requires Step(s, e).answers == s.answers + [Answer(c, true)]
    ensures Acknowledges(s, e, c)
  {
    hide Apply, Accepts;
    assert Step(s, e).answers[|s.answers|] == Answer(c, true);
  }

  /** Only these steps change the lifecycle. Frames, ticks, commands and cleanups do so only
      for the connection whose epoch is current. */
  lemma ChangesAreMadeBy(s: Lane, e: Event)
    requires Inv(s) && Step(s, e).lifecycle != s.lifecycle
    ensures e.CarrierLost? || (e.FailAfterDeadline? && e.h < |s.handlers| && s.handlers[e.h].phase == FailingLifecycle)
            || ((e.FrameIn? || e.HeartbeatTick? || e.Decide? || e.Cleanup?) && e.h < |s.handlers| && Current(s, e.h))
  {
  }

  /** The lane's owner never changes while the lifecycle stays in Stopping. The one step that
      changes it from Stopping is the owner's cleanup, which fails the lifecycle, frees the
      lane and answers the stop with an error. */
  lemma OwnerIsFixedWhileStopping(s: Lane, e: Event)
    requires Inv(s) && s.lifecycle.state == Stopping && Step(s, e).active != s.active
    ensures e.Cleanup? && e.h < |s.handlers| && Current(s, e.h) && s.handlers[e.h].pending.Some?
    ensures Step(s, e).active == None && Step(s, e).lifecycle.state == Error
    ensures Step(s, e).answers == s.answers + [Answer(s.handlers[e.h].pending.value, false)]
  {
  }

  /** Epochs strictly increase with admission order, and the lane is only ever handed to the
      newest connection. */
  lemma EpochsIncrease(id: SessionId, es: seq<Event>, i: nat, j: nat)
    requires i < j < |Run(Start(id), es).handlers|
    ensures Run(Start(id), es).handlers[i].epoch < Run(Start(id), es).handlers[j].epoch
    ensures var s := Run(Start(id), es);
            Step(s, Hello).active != s.active ==>
              forall k :: 0 <= k < |s.handlers| ==> s.handlers[k].epoch < Step(s, Hello).active.value
  {
    ReachableInv(id, es);
  }

  // ---------------------------------------------------------------- short runs

  lemma RunChain(s: Lane, a: seq<Event>, b: seq<Event>, c: seq<Event>, s1: Lane, s2: Lane, s3: Lane)
    requires Run(s, a) == s1 && Run(s1, b) == s2 && Run(s2, c) == s3
    ensures Run(s, a + b + c) == s3
  {
    RunConcat(s, a + b, c);
    RunConcat(s, a, b);
  }

  lemma RunSnoc(s: Lane, es: seq<Event>, e: Event)
    ensures Run(s, es + [e]) == Step(Run(s, es), e)
  {
    hide Step;
    assert (es + [e])[..|es|] == es;
  }

  lemma RunOne(s: Lane, a: Event)
    ensures Run(s, [a]) == Step(s, a)
  {
    hide Step;
    RunSnoc(s, [], a);
    assert [] + [a] == [a];
  }

  lemma RunTwo(s: Lane, a: Event, b: Event)
    ensures Run(s, [a, b]) == Step(Step(s, a), b)
  {
    hide Step;
    RunOne(s, a);
    RunSnoc(s, [a], b);
    assert [a] + [b] == [a, b];
  }

  lemma RunThree(s: Lane, a: Event, b: Event, c: Event)
    ensures Run(s, [a, b, c]) == Step(Step(Step(s, a), b), c)
  {
    hide Step;
    RunSnoc(s, [], a);
    RunSnoc(s, [a], b);
    RunSnoc(s, [a, b], c);
    assert [] + [a] == [a] && [a] + [b] == [a, b] && [a, b] + [c] == [a, b, c];
  }

  lemma RunFive(s: Lane, a: Event, b: Event, c: Event, d: Event, e: Event)
    ensures Run(s, [a, b, c, d, e]) == Step(Step(Step(Step(Step(s, a), b), c), d), e)
  {
    hide Step, Run;
    RunThree(s, a, b, c);
    RunSnoc(s, [a, b, c], d);
    RunSnoc(s, [a, b, c, d], e);
    assert [a, b, c] + [d] == [a, b, c, d] && [a, b, c, d] + [e] == [a, b, c, d, e];
  }

  lemma {:induction false} RunConcat(s: Lane, a: seq<Event>, b: seq<Event>)
    ensures Run(s, a + b) == Run(Run(s, a), b)
  {
    if b == [] {
      assert a + b == a;
    } else {
      assert (a + b)[..|a + b| - 1] == a + b[..|b| - 1];
      RunConcat(s, a, b[..|b| - 1]);
    }
  }
}
