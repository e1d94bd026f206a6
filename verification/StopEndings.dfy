/** How stops end on the control lane (control.rs), and how some do not: when a lifecycle stays in
    Stopping for ever, and what a stop deadline without an epoch check can hit. */
module StopEndings {
  import opened Base
  import opened ControlLane
  import opened Lifecycle

  // ------------------------------------------------- when a stop never comes to an end

  /** This handler can still fail the lifecycle although it need not own the lane: its stop has timed
      out, or is pending where its deadline will be seen. At the select that may be in the poll it is
      in, after cancellation was polled; anywhere else only if it has not been told to leave. One
      that is leaving, or putting a command back before it leaves, never sees the deadline again. */
  predicate CanRescue(s: Lane, x: Handler) {
    || x.phase == FailingLifecycle
    || (x.pending.Some?
        && (x.phase == Selecting || (!x.phase.Leaving? && !x.phase.Requeueing? && x.epoch !in s.cancelled)))
  }

  /** The owner of the stop is gone and nobody else can fail the lifecycle. */
  ghost predicate Wedged(s: Lane) {
    && Inv(s) && s.lifecycle.state == Stopping
    && s.handlers[s.active.value - 1].phase == Gone
    && forall i :: 0 <= i < |s.handlers| ==> !CanRescue(s, s.handlers[i])
  }

  /** A lifecycle in Stopping stays there in every later run exactly when the lane is wedged. */
  lemma StoppingForeverIffWedged(s: Lane)
    requires Inv(s) && s.lifecycle.state == Stopping
    ensures (forall es: seq<Event> :: Run(s, es).lifecycle.state == Stopping) <==> Wedged(s)
  {
    hide Run;
    if Wedged(s) {
      forall es: seq<Event> ensures Run(s, es).lifecycle.state == Stopping { WedgedForever(s, es); }
    } else {
      var es := Rescue(s);
      assert Run(s, es).lifecycle.state != Stopping;
    }
  }

  lemma WedgedStep(s: Lane, e: Event)
    requires Wedged(s)
    ensures var t := Step(s, e); t.lifecycle == s.lifecycle && t.active == s.active && |t.handlers| == |s.handlers|
    ensures Wedged(Step(s, e))
  {
    hide Step, Local;
    StepKeepsInv(s, e);
    if OfHandler(s, e) {
      var x, t := s.handlers[e.h], Step(s, e);
      assert |t.handlers| == |s.handlers| && t.handlers == s.handlers[e.h := t.handlers[e.h]] by { OthersStay(s, e); }
      assert HandlerOk(x) && x.epoch == e.h + 1 && !CanRescue(s, x);
      WedgedHandlerStep(s, e);
      CancelledOnlyGrows(s, e);
      forall i | 0 <= i < |t.handlers| ensures !CanRescue(t, t.handlers[i]) {
        assert t.handlers[i] == if i == e.h then t.handlers[e.h] else s.handlers[i];
      }
    } else {
      OtherEventsWhileStopping(s, e);
      CancelledOnlyGrows(s, e);
    }
  }

  lemma OthersStay(s: Lane, e: Event)
    requires Inv(s) && OfHandler(s, e)
    ensures var t := Step(s, e); |t.handlers| == |s.handlers| && t.handlers == s.handlers[e.h := t.handlers[e.h]]
  {
    hide Step;
    HandlerStepIsLocal(s, e);
  }

  lemma CancelledOnlyGrows(s: Lane, e: Event)
    ensures s.cancelled <= Step(s, e).cancelled
    ensures OfHandler(s, e) ==> Step(s, e).cancelled == s.cancelled
  {
    hide Apply, Accepts;
  }

  lemma OtherEventsWhileStopping(s: Lane, e: Event)
    requires s.lifecycle.state == Stopping && !OfHandler(s, e)
    ensures var t := Step(s, e); t.lifecycle == s.lifecycle && t.active == s.active && t.handlers == s.handlers
  {
  }

  lemma WedgedHandlerStep(s: Lane, e: Event)
    requires OfHandler(s, e) && HandlerOk(s.handlers[e.h]) && !CanRescue(s, s.handlers[e.h])
    requires Current(s, e.h) ==> s.handlers[e.h].phase == Gone
    ensures var t := Step(s, e);
            && t.lifecycle == s.lifecycle && t.active == s.active && e.h < |t.handlers|
            && !CanRescue(t, t.handlers[e.h])
            && (s.handlers[e.h].phase == Gone ==> t.handlers[e.h].phase == Gone)
  {
  }

  /** A wedged lane keeps its lifecycle and its owner and admits no connection, whatever happens. */
  lemma {:induction false} WedgedForever(s: Lane, es: seq<Event>)
    requires Wedged(s)
    ensures var t := Run(s, es);
            Wedged(t) && t.lifecycle == s.lifecycle && t.active == s.active && |t.handlers| == |s.handlers|
  {
    hide Wedged, Step;
    if es != [] {
      WedgedForever(s, es[..|es| - 1]);
      WedgedStep(Run(s, es[..|es| - 1]), es[|es| - 1]);
    }
  }

  /** How any other lane in Stopping gets out: a rescuer's deadline, or the owner's cleanup. */
  lemma Rescue(s: Lane) returns (es: seq<Event>)
    requires Inv(s) && s.lifecycle.state == Stopping && !Wedged(s)
    ensures Run(s, es).lifecycle.state != Stopping
  {
    if i :| 0 <= i < |s.handlers| && CanRescue(s, s.handlers[i]) {
      es := RescueByDeadline(s, i);
    } else {
      es := RescueByCleanup(s);
    }
  }

  lemma RescueByDeadline(s: Lane, i: nat) returns (es: seq<Event>)
    requires i < |s.handlers| && CanRescue(s, s.handlers[i]) && HandlerOk(s.handlers[i])
    ensures Run(s, es).lifecycle.state == Error
  {
    hide Run, OnCleanup, OnFrame, OnDecide;
    if s.handlers[i].phase == FailingLifecycle {
      es := [FailAfterDeadline(i)];
      RunOne(s, es[0]);
    } else if s.handlers[i].phase == Selecting {
      es := [StopDeadline(i), FailAfterDeadline(i)];
      RunTwo(s, es[0], es[1]);
    } else {
      var back := BackToSelecting(s, i);
      es := [back, StopDeadline(i), FailAfterDeadline(i)];
      RunThree(s, es[0], es[1], es[2]);
    }
  }

  /** The step that brings a handler with a pending stop back to its select. */
  lemma BackToSelecting(s: Lane, i: nat) returns (e: Event)
    requires i < |s.handlers| && CanRescue(s, s.handlers[i]) && HandlerOk(s.handlers[i])
    requires s.handlers[i].phase != FailingLifecycle && s.handlers[i].phase != Selecting
    ensures var t := Step(s, e);
            |t.handlers| == |s.handlers| && t.handlers[i].phase == Selecting && t.handlers[i].pending.Some?
  {
    e := match s.handlers[i].phase
      case Replying => ReplyWritten(i, true)
      case WritingStop => StopWritten(i, true)
      case _ => Decide(i, true);
  }

  lemma RescueByCleanup(s: Lane) returns (es: seq<Event>)
    requires Inv(s) && s.lifecycle.state == Stopping && s.handlers[s.active.value - 1].phase != Gone
    requires forall i :: 0 <= i < |s.handlers| ==> !CanRescue(s, s.handlers[i])
    ensures Run(s, es).lifecycle.state == Error
  {
    hide Run, Step;
    var owner := s.active.value - 1;
    assert Owns(s.handlers[owner]) && !CanRescue(s, s.handlers[owner]) && HandlerOk(s.handlers[owner]) && Current(s, owner);
    if s.handlers[owner].phase == Leaving {
      es := [Cleanup(owner)];
      RunOne(s, es[0]);
      OwnersCleanupFails(s, owner);
    } else {
      var out := WayOut(s, owner);
      es := [out, Cleanup(owner)];
      RunTwo(s, es[0], es[1]);
      OwnersCleanupFails(Step(s, out), owner);
    }
  }

  /** The step that takes a handler towards its cleanup: it gives its command up, or comes back to the
      select and finds itself cancelled. */
  lemma WayOut(s: Lane, h: nat) returns (e: Event)
    requires h < |s.handlers| && HandlerOk(s.handlers[h]) && s.handlers[h].pending.Some? && !CanRescue(s, s.handlers[h])
    requires s.handlers[h].phase != Leaving && Current(s, h)
    ensures var t := Step(s, e);
            && |t.handlers| == |s.handlers| && t.handlers[h].phase == Leaving && t.handlers[h].pending.Some?
            && Current(t, h)
  {
    e := match s.handlers[h].phase
      case Replying => ReplyWritten(h, true)
      case WritingStop => StopWritten(h, true)
      case Requeueing(_) => Requeue(h, Refused)
      case _ => Decide(h, true);
  }

  lemma OwnersCleanupFails(s: Lane, h: nat)
    requires h < |s.handlers| && Current(s, h) && s.handlers[h].phase == Leaving && s.handlers[h].pending.Some?
    ensures Step(s, Cleanup(h)).lifecycle.state == Error
  {
  }

  /** The handler ends in this step without running its cleanup. */
  predicate ExitsEarly(s: Lane, e: Event) {
    && OfHandler(s, e) && !e.Cleanup? && s.handlers[e.h].phase != Gone
    && var t := Step(s, e); e.h < |t.handlers| && t.handlers[e.h].phase == Gone
  }

  /** The early returns a stop's owner can take while Stopping: STOP cannot be written, an answer
      cannot be written, or a frame carries another session. */
  lemma EarlyExitsWhileStopping(s: Lane, e: Event)
    requires Inv(s) && s.lifecycle.state == Stopping && OfHandler(s, e) && Current(s, e.h)
    ensures ExitsEarly(s, e) <==>
              || (e.StopWritten? && !e.ok && s.handlers[e.h].phase == WritingStop)
              || (e.ReplyWritten? && !e.ok && s.handlers[e.h].phase == Replying)
              || (e.FrameIn? && e.frame.StaleSession? && s.handlers[e.h].phase == Selecting)
  {
    hide Apply, Accepts;
  }

  ghost predicate NoOtherRescuer(s: Lane, h: nat) {
    forall i :: 0 <= i < |s.handlers| && i != h ==> !CanRescue(s, s.handlers[i])
  }

  // ------------------------------------------------ who a superseded rescuer can be

  /** Admission cancels the connection it replaces: every handler that is still running and does not
      own the lane has been told to leave. */
  ghost predicate SupersededAreCancelled(s: Lane) {
    forall i :: 0 <= i < |s.handlers| && !Current(s, i) && s.handlers[i].phase != Gone ==> s.handlers[i].epoch in s.cancelled
  }

  lemma StepKeepsCancelled(s: Lane, e: Event)
    requires Inv(s) && SupersededAreCancelled(s)
    ensures SupersededAreCancelled(Step(s, e))
  {
    var t := Step(s, e);
    CancelledOnlyGrows(s, e);
    if OfHandler(s, e) {
      hide HandlerStep;
      HandlerStepIsLocal(s, e);
      SlotIsClearedByTheGone(s, e);
      forall i | 0 <= i < |t.handlers| && !Current(t, i) && t.handlers[i].phase != Gone ensures t.handlers[i].epoch in t.cancelled {
        assert s.handlers[i].epoch == i + 1 && s.handlers[e.h].epoch == e.h + 1;
        assert t.handlers[i] == if i == e.h then t.handlers[e.h] else s.handlers[i];
      }
    } else {
      forall i | 0 <= i < |t.handlers| && !Current(t, i) && t.handlers[i].phase != Gone ensures t.handlers[i].epoch in t.cancelled {
        assert i < |s.handlers| && t.handlers[i] == s.handlers[i];
      }
    }
  }

  /** A handler gives the lane up only by ending, and a handler that has ended stays so. */
  lemma SlotIsClearedByTheGone(s: Lane, e: Event)
    requires OfHandler(s, e)
    ensures var t := Step(s, e);
            && e.h < |t.handlers|
            && (t.active != s.active ==> t.handlers[e.h].phase == Gone)
            && (s.handlers[e.h].phase == Gone ==> t.handlers[e.h].phase == Gone)
  {
    hide Apply, Accepts;
  }

  lemma {:induction false} ReachableCancelled(id: SessionId, es: seq<Event>)
    ensures Inv(Run(Start(id), es)) && SupersededAreCancelled(Run(Start(id), es))
  {
    hide Step, Inv;
    ReachableInv(id, es);
    if es != [] {
      ReachableCancelled(id, es[..|es| - 1]);
      StepKeepsCancelled(Run(Start(id), es[..|es| - 1]), es[|es| - 1]);
    }
  }

  /** In every reachable lane a superseded connection can rescue the lifecycle only if it has already
      timed out, or was caught inside a poll of its select with its stop pending. */
  lemma SupersededRescuers(id: SessionId, es: seq<Event>, i: nat)
    ensures var s := Run(Start(id), es);
            i < |s.handlers| && !Current(s, i) ==>
              (CanRescue(s, s.handlers[i]) <==>
                 s.handlers[i].phase == FailingLifecycle || (s.handlers[i].phase == Selecting && s.handlers[i].pending.Some?))
  {
    hide Run;
    ReachableCancelled(id, es);
    var s := Run(Start(id), es);
    if i < |s.handlers| { assert HandlerOk(s.handlers[i]); }
  }

  /** A superseded connection that is writing an answer does not help: it comes back cancelled. A run
      of two stops that ends wedged although the first one is still pending. */
  lemma PendingIsNotEnough(id: SessionId) returns (es: seq<Event>)
    ensures var s := Run(Start(id), es);
            Wedged(s) && exists i :: 0 <= i < |s.handlers| && s.handlers[i].pending.Some? && s.handlers[i].phase == Replying
  {
    hide Run, Step, Wedged;
    var fail := [StopWritten(0, true), FrameIn(0, ErrorFrame, 0), FrameIn(0, StatusFrame, 0)];
    var lose := [StopWritten(1, false)];
    es := FIRST_STOP + fail + SECOND_STOP + lose;
    FirstStop(id);
    RunThree(Stopping1(id), fail[0], fail[1], fail[2]);
    FailedWhileReplying(id);
    SecondStopBesideReply(id);
    RunChain(Start(id), FIRST_STOP, fail, SECOND_STOP, Stopping1(id), Replying1(id), BesideReply(id));
    RunConcat(Start(id), FIRST_STOP + fail + SECOND_STOP, lose);
    RunOne(BesideReply(id), lose[0]);
    BesideReplyIsLost(id);
  }

  function Replying1(id: SessionId): Lane {
    Lane(id, Machine(Error, Some(id), None, 0, Some(PEER_ERROR_REASON)), Some(1), 1,
         [Handler(1, Replying, Some(0), true)], {}, [], 1, [])
  }

  function BesideReply(id: SessionId): Lane {
    Lane(id, Machine(Stopping, Some(id), None, 0, None), Some(2), 2,
         [Handler(1, Replying, Some(0), true), Handler(2, WritingStop, Some(1), false)], {1}, [], 2, [])
  }

  lemma FailedWhileReplying(id: SessionId)
    ensures Step(Step(Step(Stopping1(id), StopWritten(0, true)), FrameIn(0, ErrorFrame, 0)), FrameIn(0, StatusFrame, 0))
            == Replying1(id)
  {
  }

  lemma SecondStopBesideReply(id: SessionId)
    ensures Run(Replying1(id), SECOND_STOP) == BesideReply(id)
  {
    hide Run;
    RunFive(Replying1(id), Hello, ReplyWritten(1, true), Submit, TakeCommand(1), Decide(1, false));
    var s := Step(Step(Step(Replying1(id), Hello), ReplyWritten(1, true)), Submit);
    assert s.queue[1..] == [] && s.cancelled == {1};
  }

  lemma BesideReplyIsLost(id: SessionId)
    ensures var s := Step(BesideReply(id), StopWritten(1, false));
            && Wedged(s) && |s.handlers| == 2 && s.handlers[0] == Handler(1, Replying, Some(0), true)
  {
    var s := Step(BesideReply(id), StopWritten(1, false));
    assert s.handlers == [Handler(1, Replying, Some(0), true), Handler(2, Gone, None, false)];
  }

  // --------------------------------------------------------- after an early return

  /** After an early return of the owner the lifecycle is in Stopping for ever exactly when no
      superseded connection is left that can still time out. */
  lemma EarlyExitWedgesTheLane(s: Lane, e: Event)
    requires Inv(s) && s.lifecycle.state == Stopping && OfHandler(s, e) && Current(s, e.h) && ExitsEarly(s, e)
    ensures (forall es: seq<Event> :: Run(Step(s, e), es).lifecycle.state == Stopping) <==> NoOtherRescuer(s, e.h)
  {
    hide Run;
    var t := Step(s, e);
    EarlyExitIsQuiet(s, e);
    StepKeepsInv(s, e);
    HandlerStepIsLocal(s, e);
    assert s.handlers[e.h].epoch == e.h + 1;
    forall i | 0 <= i < |t.handlers| && i != e.h ensures t.handlers[i] == s.handlers[i] {}
    StoppingForeverIffWedged(t);
    assert !CanRescue(t, t.handlers[e.h]) by { assert HandlerOk(t.handlers[e.h]); }
    assert Wedged(t) <==> NoOtherRescuer(s, e.h);
  }

  lemma EarlyExitIsQuiet(s: Lane, e: Event)
    requires Inv(s) && s.lifecycle.state == Stopping && OfHandler(s, e) && Current(s, e.h) && ExitsEarly(s, e)
    ensures Step(s, e).lifecycle == s.lifecycle && Step(s, e).active == s.active
  {
    hide Apply, Accepts;
  }

  /** STOP cannot be written. */
  lemma FailedStopWriteWedgesTheLane(s: Lane, h: nat)
    requires Inv(s) && h < |s.handlers| && Current(s, h) && s.handlers[h].phase == WritingStop
    requires s.lifecycle.state == Stopping
    ensures (forall es: seq<Event> :: Run(Step(s, StopWritten(h, false)), es).lifecycle.state == Stopping)
            <==> NoOtherRescuer(s, h)
  {
    hide Run;
    EarlyExitsWhileStopping(s, StopWritten(h, false));
    EarlyExitWedgesTheLane(s, StopWritten(h, false));
  }

  /** An answer, such as a heartbeat echo, cannot be written while Stopping. */
  lemma FailedReplyWedgesTheLane(s: Lane, h: nat)
    requires Inv(s) && h < |s.handlers| && Current(s, h) && s.handlers[h].phase == Replying
    requires s.lifecycle.state == Stopping
    ensures (forall es: seq<Event> :: Run(Step(s, ReplyWritten(h, false)), es).lifecycle.state == Stopping)
            <==> NoOtherRescuer(s, h)
  {
    hide Run;
    EarlyExitsWhileStopping(s, ReplyWritten(h, false));
    EarlyExitWedgesTheLane(s, ReplyWritten(h, false));
  }

  /** A frame of another session arrives while Stopping. */
  lemma StaleSessionWedgesTheLane(s: Lane, h: nat, now: nat)
    requires Inv(s) && h < |s.handlers| && Current(s, h) && s.handlers[h].phase == Selecting
    requires s.lifecycle.state == Stopping
    ensures (forall es: seq<Event> :: Run(Step(s, FrameIn(h, StaleSession, now)), es).lifecycle.state == Stopping)
            <==> NoOtherRescuer(s, h)
  {
    hide Run;
    EarlyExitsWhileStopping(s, FrameIn(h, StaleSession, now));
    EarlyExitWedgesTheLane(s, FrameIn(h, StaleSession, now));
  }

  /** Each of the three is reached, by the first stop of a fresh lane. */
  lemma EveryEarlyExitIsReached(id: SessionId) returns (stopWrite: seq<Event>, reply: seq<Event>, stale: seq<Event>)
    ensures stopWrite != [] && stopWrite[|stopWrite| - 1] == StopWritten(0, false) && Wedged(Run(Start(id), stopWrite))
    ensures reply != [] && reply[|reply| - 1] == ReplyWritten(0, false) && Wedged(Run(Start(id), reply))
    ensures stale != [] && stale[|stale| - 1] == FrameIn(0, StaleSession, 0) && Wedged(Run(Start(id), stale))
  {
    hide Run, Wedged, Step;
    FirstStop(id);
    var s := Stopping1(id);
    stopWrite := FIRST_STOP + [StopWritten(0, false)];
    reply := FIRST_STOP + [StopWritten(0, true), FrameIn(0, Beat(true), 0), ReplyWritten(0, false)];
    stale := FIRST_STOP + [StopWritten(0, true), FrameIn(0, StaleSession, 0)];
    RunConcat(Start(id), FIRST_STOP, [StopWritten(0, false)]);
    RunConcat(Start(id), FIRST_STOP, [StopWritten(0, true), FrameIn(0, Beat(true), 0), ReplyWritten(0, false)]);
    RunConcat(Start(id), FIRST_STOP, [StopWritten(0, true), FrameIn(0, StaleSession, 0)]);
    RunOne(s, StopWritten(0, false));
    RunThree(s, StopWritten(0, true), FrameIn(0, Beat(true), 0), ReplyWritten(0, false));
    RunTwo(s, StopWritten(0, true), FrameIn(0, StaleSession, 0));
    ExitsFromFirstStop(id);
  }

  lemma ExitsFromFirstStop(id: SessionId)
    ensures var s := Stopping1(id);
            && Wedged(Step(s, StopWritten(0, false)))
            && Wedged(Step(Step(Step(s, StopWritten(0, true)), FrameIn(0, Beat(true), 0)), ReplyWritten(0, false)))
            && Wedged(Step(Step(s, StopWritten(0, true)), FrameIn(0, StaleSession, 0)))
  {
    var s := Stopping1(id);
    var gone := [Handler(1, Gone, None, false)];
    assert Step(s, StopWritten(0, false)).handlers == gone;
    assert Step(Step(Step(s, StopWritten(0, true)), FrameIn(0, Beat(true), 0)), ReplyWritten(0, false)).handlers == gone;
    assert Step(Step(s, StopWritten(0, true)), FrameIn(0, StaleSession, 0)).handlers == gone;
  }

  // ------------------------------------------------------- what a late deadline can hit

  /** The handler has begun a stop that it has not seen the end of. */
  predicate InStop(x: Handler) { x.pending.Some? || x.phase == FailingLifecycle }

  predicate Settling(m: Machine) { m.state == Stopping || m.state == Stopped || m.state == Error }

  /** Once a stop has begun the lifecycle is in Stopping, Stopped or Error, and in Stopped only if the
      connection that owns the lane is not itself still in a stop. */
  ghost predicate StopHistory(s: Lane) {
    forall i :: 0 <= i < |s.handlers| && InStop(s.handlers[i]) ==>
      Settling(s.lifecycle) && (Current(s, i) ==> s.lifecycle.state != Stopped)
  }

  /** What one step of handler `h` means for the history of stops. */
  ghost predicate HistoryStep(s: Lane, h: nat, t: Lane) {
    && h < |s.handlers| && h < |t.handlers|
    && (Settling(s.lifecycle) ==> Settling(t.lifecycle))
    && (InStop(t.handlers[h]) ==> InStop(s.handlers[h]) || t.lifecycle.state == Stopping)
    && (t.lifecycle.state == Stopped && s.lifecycle.state != Stopped ==> Current(s, h) && !InStop(t.handlers[h]))
  }

  lemma FrameIsHistory(s: Lane, h: nat, f: Incoming, now: nat)
    requires h < |s.handlers| && HandlerOk(s.handlers[h])
    ensures HistoryStep(s, h, Step(s, FrameIn(h, f, now)))
  {
  }

  lemma OthersAreHistory(s: Lane, e: Event)
    requires OfHandler(s, e) && HandlerOk(s.handlers[e.h]) && !e.FrameIn?
    ensures HistoryStep(s, e.h, Step(s, e))
  {
    hide OnFrame;
  }

  lemma StepKeepsHistory(s: Lane, e: Event)
    requires Inv(s) && StopHistory(s)
    ensures StopHistory(Step(s, e))
  {
    var t := Step(s, e);
    if OfHandler(s, e) {
      hide HandlerStep;
      HandlerStepIsLocal(s, e);
      if e.FrameIn? { FrameIsHistory(s, e.h, e.frame, e.now); } else { OthersAreHistory(s, e); }
      LocalHistory(s, e.h, t);
    } else {
      forall i | 0 <= i < |t.handlers| && InStop(t.handlers[i])
        ensures Settling(t.lifecycle) && (Current(t, i) ==> t.lifecycle.state != Stopped)
      {
        assert i < |s.handlers| && t.handlers[i] == s.handlers[i] && s.handlers[i].epoch == i + 1;
      }
    }
  }

  lemma LocalHistory(s: Lane, h: nat, t: Lane)
    requires Inv(s) && StopHistory(s) && Local(s, h, t) && HistoryStep(s, h, t)
    ensures StopHistory(t)
  {
    forall i | 0 <= i < |t.handlers| && InStop(t.handlers[i])
      ensures Settling(t.lifecycle) && (Current(t, i) ==> t.lifecycle.state != Stopped)
    {
      assert t.handlers[i] == if i == h then t.handlers[h] else s.handlers[i];
      assert s.handlers[i].epoch == i + 1 && s.handlers[h].epoch == h + 1;
    }
  }

  lemma {:induction false} ReachableHistory(id: SessionId, es: seq<Event>)
    ensures Inv(Run(Start(id), es)) && StopHistory(Run(Start(id), es))
  {
    hide Step, Inv, StopHistory;
    if es == [] {
      assert Inv(Start(id)) by { ReachableInv(id, []); }
      NoHandlersNoHistory(id);
    } else {
      ReachableHistory(id, es[..|es| - 1]);
      StepKeepsInv(Run(Start(id), es[..|es| - 1]), es[|es| - 1]);
      StepKeepsHistory(Run(Start(id), es[..|es| - 1]), es[|es| - 1]);
    }
  }

  lemma NoHandlersNoHistory(id: SessionId)
    ensures StopHistory(Start(id))
  {
  }

  /** The late deadline of `h` ends something that is not `h`'s own stop: it moves the lifecycle out of
      a Stopping that another connection owns, or out of Stopped. */
  predicate HitsAnother(s: Lane, h: nat)
    requires h < |s.handlers|
  {
    && Step(s, FailAfterDeadline(h)).lifecycle.state != s.lifecycle.state
    && !(s.lifecycle.state == Stopping && s.active == Some(h + 1))
  }

  /** The guard that the deadline arm does not have is the exact condition. A connection that is still
      current only ever ends its own stop, or finds the lifecycle failed already. One that is not
      current ends another's open stop, undoes an acknowledged stop, or, in Error, overwrites the
      reason and nothing else. */
  lemma DeadlineHitsAnotherIffSuperseded(id: SessionId, es: seq<Event>, h: nat)
    ensures var s := Run(Start(id), es);
            h < |s.handlers| && s.handlers[h].phase == FailingLifecycle ==>
              && Step(s, FailAfterDeadline(h)).lifecycle.state == Error
              && Settling(s.lifecycle)
              && (HitsAnother(s, h) <==> !Current(s, h) && s.lifecycle.state != Error)
              && (Current(s, h) ==> s.lifecycle.state != Stopped)
              && (s.lifecycle.state == Stopping && !Current(s, h) ==> OwnedByAnother(s, h))
              && (s.lifecycle.state == Error ==>
                    Step(s, FailAfterDeadline(h)).lifecycle
                    == s.lifecycle.(lastHeartbeat := None, reason := Some(STOP_TIMED_OUT_REASON)))
  {
    hide Run;
    ReachableHistory(id, es);
    var s := Run(Start(id), es);
    if h < |s.handlers| && s.handlers[h].phase == FailingLifecycle {
      assert InStop(s.handlers[h]) && s.handlers[h].epoch == h + 1;
    }
  }

  /** A newer or older connection owns the stop in progress. */
  ghost predicate OwnedByAnother(s: Lane, h: nat) {
    s.active.Some? && 1 <= s.active.value <= |s.handlers| && s.active.value != h + 1 && Owns(s.handlers[s.active.value - 1])
  }

  /** Who changes the lifecycle, in any reachable state: a carrier loss; the current connection, by a
      frame, a tick, a command or its cleanup; or a stop's deadline, on its own stop, on a failed
      lifecycle, or, once superseded, on another's. */
  lemma LifecycleChangesAreAttributed(id: SessionId, es: seq<Event>, e: Event)
    ensures var s := Run(Start(id), es);
            Step(s, e).lifecycle != s.lifecycle ==>
              || e.CarrierLost?
              || ((e.FrameIn? || e.HeartbeatTick? || e.Decide? || e.Cleanup?) && e.h < |s.handlers| && Current(s, e.h))
              || (e.FailAfterDeadline? && e.h < |s.handlers|
                  && (if Current(s, e.h) then s.lifecycle.state == Stopping || s.lifecycle.state == Error
                      else s.lifecycle.state == Error || HitsAnother(s, e.h)))
  {
    hide Run, Step;
    ReachableHistory(id, es);
    var s := Run(Start(id), es);
    if Step(s, e).lifecycle != s.lifecycle {
      ChangesAreMadeBy(s, e);
      if e.FailAfterDeadline? { DeadlineHitsAnotherIffSuperseded(id, es, e.h); }
    }
  }

  /** A stop that can no longer be acknowledged: its holder has lost the lane or the lifecycle has
      failed under it, or it has already been answered with an error. */
  ghost predicate Doomed(s: Lane, c: Command, n: nat) {
    && n < |s.handlers|
    && (Answer(c, false) in s.answers
        || (s.handlers[n].pending == Some(c) && (!Current(s, n) || s.lifecycle.state == Error)))
  }

  /** The stop is still held, in a failed lifecycle if it was in one, or the last answer refuses it. */
  ghost predicate KeptOrRefused(s: Lane, h: nat, t: Lane, c: Command) {
    || (t.answers != [] && t.answers[|t.answers| - 1] == Answer(c, false))
    || (h < |t.handlers| && t.handlers[h].pending == Some(c) && (s.lifecycle.state == Error ==> t.lifecycle.state == Error))
  }

  /** The holder's own step keeps such a stop, or answers it with an error. */
  lemma DoomedByItsHolder(s: Lane, e: Event, c: Command)
    requires OfHandler(s, e) && HandlerOk(s.handlers[e.h]) && s.handlers[e.h].pending == Some(c)
    requires !Current(s, e.h) || s.lifecycle.state == Error
    ensures KeptOrRefused(s, e.h, Step(s, e), c)
  {
    if e.FrameIn? {
      DoomedOnFrame(s, e.h, e.frame, e.now, c);
    } else {
      hide OnFrame;
    }
  }

  lemma DoomedOnFrame(s: Lane, h: nat, f: Incoming, now: nat, c: Command)
    requires h < |s.handlers| && s.handlers[h].pending == Some(c)
    requires !Current(s, h) || s.lifecycle.state == Error
    ensures KeptOrRefused(s, h, Step(s, FrameIn(h, f, now)), c)
  {
    hide OnDecide, OnCleanup;
  }

  lemma AnswersOnlyGrow(s: Lane, e: Event)
    requires Inv(s)
    ensures s.answers <= Step(s, e).answers
  {
    if OfHandler(s, e) {
      hide HandlerStep;
      HandlerStepPassesOn(s, e, 0);
    }
  }

  lemma DoomedStaysOnOthersSteps(s: Lane, e: Event, c: Command, n: nat)
    requires Inv(s) && n < |s.handlers| && s.handlers[n].pending == Some(c)
    requires !Current(s, n) || s.lifecycle.state == Error
    requires OfHandler(s, e) ==> e.h != n
    ensures var t := Step(s, e); n < |t.handlers| && t.handlers[n].pending == Some(c) && (!Current(t, n) || t.lifecycle.state == Error)
  {
    assert s.handlers[n].epoch == n + 1;
    if OfHandler(s, e) {
      hide HandlerStep;
      HandlerStepIsLocal(s, e);
      assert Step(s, e).handlers[n] == s.handlers[n];
      assert s.handlers[e.h].epoch == e.h + 1;
      if Step(s, e).lifecycle != s.lifecycle {
        ChangesAreMadeBy(s, e);
        if e.FailAfterDeadline? { DeadlineFails(s, e.h); }
      }
    }
  }

  lemma DeadlineFails(s: Lane, h: nat)
    requires h < |s.handlers| && s.handlers[h].phase == FailingLifecycle
    ensures Step(s, FailAfterDeadline(h)).lifecycle.state == Error
  {
  }

  lemma StepKeepsDoomed(s: Lane, e: Event, c: Command, n: nat)
    requires Inv(s) && Doomed(s, c, n)
    ensures Doomed(Step(s, e), c, n)
  {
    hide Step;
    var t := Step(s, e);
    AnswersOnlyGrow(s, e);
    assert |s.handlers| <= |t.handlers| by { HandlersOnlyGrow(s, e); }
    if Answer(c, false) in s.answers {
      assert Answer(c, false) in t.answers;
    } else if OfHandler(s, e) && e.h == n {
      HandlerStepIsLocal(s, e);
      assert HandlerOk(s.handlers[n]) && s.handlers[n].epoch == n + 1;
      DoomedByItsHolder(s, e, c);
    } else {
      DoomedStaysOnOthersSteps(s, e, c, n);
    }
  }

  lemma HandlersOnlyGrow(s: Lane, e: Event)
    requires Inv(s)
    ensures |s.handlers| <= |Step(s, e).handlers|
  {
    if OfHandler(s, e) {
      hide HandlerStep;
      HandlerStepIsLocal(s, e);
    }
  }

  lemma {:induction false} DoomedForever(s: Lane, es: seq<Event>, c: Command, n: nat)
    requires Inv(s) && Doomed(s, c, n)
    ensures Inv(Run(s, es)) && Doomed(Run(s, es), c, n)
  {
    hide Step, Doomed, Inv;
    if es != [] {
      DoomedForever(s, es[..|es| - 1], c, n);
      StepKeepsInv(Run(s, es[..|es| - 1]), es[|es| - 1]);
      StepKeepsDoomed(Run(s, es[..|es| - 1]), es[|es| - 1], c, n);
    }
  }

  /** In a reachable lane a doomed stop has not been answered Ok. */
  lemma DoomedIsNotOk(id: SessionId, es: seq<Event>, c: Command, n: nat)
    ensures Doomed(Run(Start(id), es), c, n) ==> Answer(c, true) !in Run(Start(id), es).answers
  {
    hide Run;
    var s := Run(Start(id), es);
    if i :| Doomed(s, c, n) && 0 <= i < |s.answers| && s.answers[i] == Answer(c, true) {
      if Answer(c, false) in s.answers {
        var j :| 0 <= j < |s.answers| && s.answers[j] == Answer(c, false);
        if i < j { StopIsAnsweredAtMostOnce(id, es, i, j); } else { StopIsAnsweredAtMostOnce(id, es, j, i); }
      } else {
        AnAnswerCounts(s.answers, i);
        AHolderCounts(s.handlers, n, c);
        EveryCommandIsInOnePlace(id, es, c);
      }
      assert false;
    }
  }

  lemma {:induction false} AHolderCounts(hs: seq<Handler>, n: nat, c: Command)
    requires n < |hs| && hs[n].pending == Some(c)
    ensures InHandlers(hs, c) >= 1
    decreases |hs|
  {
    if n < |hs| - 1 {
      AHolderCounts(hs[..|hs| - 1], n, c);
    }
  }

  /** The lifecycle is in Stopping and the lane's owner waits for `c` to be acknowledged. */
  predicate OpenStop(s: Lane, c: Command) {
    && s.lifecycle.state == Stopping && s.active.Some? && 1 <= s.active.value <= |s.handlers|
    && s.handlers[s.active.value - 1].pending == Some(c)
  }

  /** A stop that a late deadline hits is never answered Ok, in any later run. */
  lemma HitStopIsNeverOk(id: SessionId, es: seq<Event>, h: nat, c: Command, later: seq<Event>)
    ensures var s := Run(Start(id), es);
            h < |s.handlers| && s.handlers[h].phase == FailingLifecycle && OpenStop(s, c) ==>
              Answer(c, true) !in Run(Step(s, FailAfterDeadline(h)), later).answers
  {
    hide Run, Step, Doomed;
    ReachableHistory(id, es);
    var s := Run(Start(id), es);
    if h < |s.handlers| && s.handlers[h].phase == FailingLifecycle && OpenStop(s, c) {
      var e, n := FailAfterDeadline(h), s.active.value - 1;
      HitIsDoomed(s, h, c);
      StepKeepsInv(s, e);
      DoomedForever(Step(s, e), later, c, n);
      RunSnoc(Start(id), es, e);
      RunConcat(Start(id), es + [e], later);
      DoomedIsNotOk(id, es + [e] + later, c, n);
    }
  }

  lemma HitIsDoomed(s: Lane, h: nat, c: Command)
    requires Inv(s) && h < |s.handlers| && s.handlers[h].phase == FailingLifecycle && OpenStop(s, c)
    ensures Doomed(Step(s, FailAfterDeadline(h)), c, s.active.value - 1)
  {
    assert HandlerOk(s.handlers[s.active.value - 1]);
  }

  // --------------------------------------------------------------- that it happens

  /** A run in which the late deadline ends a newer connection's open stop, and one in which it turns
      an acknowledged stop, answered Ok, into an error. */
  lemma LateDeadlineFailsANewerStop(id: SessionId) returns (open: seq<Event>, acknowledged: seq<Event>)
    ensures FailsANewerStop(Run(Start(id), open), 0, 1)
    ensures UndoesAStop(Run(Start(id), acknowledged), 0, 1)
  {
    hide Run, Step;
    open := FIRST_STOP + FIRST_TIMEOUT + SECOND_STOP;
    FirstStop(id);
    FirstTimeout(id);
    SecondStop(id);
    NewerStopFails(id);
    RunChain(Start(id), FIRST_STOP, FIRST_TIMEOUT, SECOND_STOP, Stopping1(id), TimedOut1(id), Stopping2(id));
    var ack := [StopWritten(1, true), FrameIn(1, StoppedFrame, 0)];
    acknowledged := open + ack;
    RunConcat(Start(id), open, ack);
    RunTwo(Stopping2(id), ack[0], ack[1]);
    SecondStopIsAcknowledged(id);
  }

  ghost predicate FailsANewerStop(s: Lane, late: nat, newer: nat) {
    && late < |s.handlers| && newer < |s.handlers|
    && s.handlers[late].phase == FailingLifecycle
    && s.handlers[late].epoch < s.handlers[newer].epoch && Current(s, newer)
    && s.handlers[newer].pending.Some? && s.lifecycle.state == Stopping
    && Step(s, FailAfterDeadline(late)).lifecycle.state == Error
  }

  /** Command `c` has been answered Ok and the lifecycle is Stopped, and the deadline makes it Error. */
  ghost predicate UndoesAStop(s: Lane, late: nat, c: Command) {
    && late < |s.handlers| && s.handlers[late].phase == FailingLifecycle
    && Answer(c, true) in s.answers && s.lifecycle.state == Stopped
    && Step(s, FailAfterDeadline(late)).lifecycle.state == Error
  }

  lemma NewerStopFails(id: SessionId)
    ensures FailsANewerStop(Stopping2(id), 0, 1)
  {
  }

  lemma SecondStopIsAcknowledged(id: SessionId)
    ensures UndoesAStop(Step(Step(Stopping2(id), StopWritten(1, true)), FrameIn(1, StoppedFrame, 0)), 0, 1)
  {
    var s := Step(Step(Stopping2(id), StopWritten(1, true)), FrameIn(1, StoppedFrame, 0));
    assert s.answers == [Answer(0, false), Answer(1, true)] && s.answers[1] == Answer(1, true);
  }

  const FIRST_STOP := [Hello, ReplyWritten(0, true), Submit, TakeCommand(0), Decide(0, false)]
  const FIRST_TIMEOUT := [StopWritten(0, true), FrameIn(0, ErrorFrame, 0), StopDeadline(0)]
  const SECOND_STOP := [Hello, ReplyWritten(1, true), Submit, TakeCommand(1), Decide(1, false)]

  function Stopping1(id: SessionId): Lane {
    Lane(id, Machine(Stopping, Some(id), None, 0, None), Some(1), 1, [Handler(1, WritingStop, Some(0), false)], {}, [], 1, [])
  }

  function TimedOut1(id: SessionId): Lane {
    Lane(id, Machine(Error, Some(id), None, 0, Some(PEER_ERROR_REASON)), Some(1), 1,
         [Handler(1, FailingLifecycle, None, false)], {}, [], 1, [Answer(0, false)])
  }

  function Stopping2(id: SessionId): Lane {
    Lane(id, Machine(Stopping, Some(id), None, 0, None), Some(2), 2,
         [Handler(1, FailingLifecycle, None, false), Handler(2, WritingStop, Some(1), false)], {1}, [], 2, [Answer(0, false)])
  }

  lemma FirstStop(id: SessionId)
    ensures Run(Start(id), FIRST_STOP) == Stopping1(id)
  {
    RunFive(Start(id), Hello, ReplyWritten(0, true), Submit, TakeCommand(0), Decide(0, false));
    assert Step(Step(Step(Start(id), Hello), ReplyWritten(0, true)), Submit).queue[1..] == [];
  }

  lemma FirstTimeout(id: SessionId)
    ensures Run(Stopping1(id), FIRST_TIMEOUT) == TimedOut1(id)
  {
    RunThree(Stopping1(id), StopWritten(0, true), FrameIn(0, ErrorFrame, 0), StopDeadline(0));
  }

  lemma SecondStop(id: SessionId)
    ensures Run(TimedOut1(id), SECOND_STOP) == Stopping2(id)
  {
    RunFive(TimedOut1(id), Hello, ReplyWritten(1, true), Submit, TakeCommand(1), Decide(1, false));
    var s := Step(Step(Step(TimedOut1(id), Hello), ReplyWritten(1, true)), Submit);
    assert s.queue[1..] == [] && s.cancelled == {1};
  }
}
