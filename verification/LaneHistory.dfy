/** What the control lane (control.rs) must do: the lifecycle is exactly the history of what the
    current connection heard, admission always hands the lane over, and a stop can always be carried
    through. */
module LaneHistory {
  import opened Base
  import opened ControlLane
  import opened Lifecycle

  // ------------------------------------------------- the lifecycle is the lane's history

  /** The lifecycle transitions an event stands for, told from the event, the active slot and where its
      handler is, never from the lifecycle itself: what the current connection hears at its select, a
      stop it takes up, its cleanup, any connection's late deadline, and a loss of the carrier. */
  function Heard(s: Lane, e: Event): seq<Transition> {
    match e
    case CarrierLost(why) => [TransportLost(why)]
    case HeartbeatTick(h, now) => if AtSelect(s, h) && Current(s, h) then [Tick(now)] else []
    case FrameIn(h, f, now) => if AtSelect(s, h) && Current(s, h) then Said(s, h, f, now) else []
    case Decide(h, expired) =>
      if h < |s.handlers| && s.handlers[h].phase.Holding? && Current(s, h) && !expired && s.handlers[h].pending == None
      then [BeginStop] else []
    case FailAfterDeadline(h) =>
      if h < |s.handlers| && s.handlers[h].phase == FailingLifecycle then [Fail(STOP_TIMED_OUT_REASON)] else []
    case Cleanup(h) =>
      if h < |s.handlers| && s.handlers[h].phase == Leaving && Current(s, h)
      then [if s.handlers[h].pending.Some? then Fail(STOP_LOST_REASON) else TransportLost(TRANSPORT_LOST_REASON)]
      else []
    case _ => []
  }

  predicate AtSelect(s: Lane, h: nat) { h < |s.handlers| && s.handlers[h].phase == Selecting }

  /** What a frame of the current connection says to the lifecycle. */
  function Said(s: Lane, h: nat, f: Incoming, now: nat): seq<Transition>
    requires h < |s.handlers|
  {
    match f
    case Started(valid, _) => if valid then [PeerStarted(s.session, now)] else []
    case Beat(valid) => if valid then [Heartbeat(s.session, now)] else []
    case SuspendFrame(valid) => if valid then [PeerSuspended(s.session)] else []
    case ErrorFrame => [Fail(PEER_ERROR_REASON)]
    case StoppedFrame => if s.handlers[h].pending.Some? then [StoppedByPeer] else []
    case _ => []
  }

  function History(id: SessionId, es: seq<Event>): seq<Transition> {
    if es == [] then []
    else History(id, es[..|es| - 1]) + Heard(Run(Start(id), es[..|es| - 1]), es[|es| - 1])
  }

  function After(m: Machine, ts: seq<Transition>): Machine { if ts == [] then m else Apply(m, ts[0]) }

  lemma HeardIsApplied(s: Lane, e: Event)
    requires Inv(s)
    ensures |Heard(s, e)| <= 1 && Step(s, e).lifecycle == After(s.lifecycle, Heard(s, e))
    ensures Step(s, e).session == s.session
  {
    if OfHandler(s, e) {
      var x := s.handlers[e.h];
      if e.FrameIn? && x.phase == Selecting {
        FrameIsApplied(s, e.h, e.frame, e.now);
      } else {
        hide OnFrame;
      }
    }
  }

  lemma FrameIsApplied(s: Lane, h: nat, f: Incoming, now: nat)
    requires h < |s.handlers| && s.handlers[h].phase == Selecting
    ensures var said := if Current(s, h) then Said(s, h, f, now) else [];
            |said| <= 1 && OnFrame(s, h, f, now).lifecycle == After(s.lifecycle, said)
    ensures OnFrame(s, h, f, now).session == s.session
  {
  }

  /** The lifecycle of any lane, after any run, is what a start followed by the lane's history gives:
      everything the current connection hears takes effect, and nothing else does. */
  lemma {:induction false} LifecycleIsItsHistory(id: SessionId, es: seq<Event>)
    ensures Run(Start(id), es).lifecycle == Final(INITIAL, [BeginStart(id)] + History(id, es))
    ensures Run(Start(id), es).session == id
  {
    hide Step, Heard, Apply, Accepts;
    if es == [] {
      assert [BeginStart(id)] + [] == [BeginStart(id)] && [] + [BeginStart(id)] == [BeginStart(id)];
      FinalOfSnoc(INITIAL, [], BeginStart(id));
    } else {
      var front, e := es[..|es| - 1], es[|es| - 1];
      var s := Run(Start(id), front);
      LifecycleIsItsHistory(id, front);
      ReachableInv(id, front);
      HeardIsApplied(s, e);
      var before, heard := [BeginStart(id)] + History(id, front), Heard(s, e);
      if heard == [] {
        assert History(id, es) == History(id, front);
      } else {
        assert heard == [heard[0]];
        assert [BeginStart(id)] + (History(id, front) + heard) == before + [heard[0]];
        FinalOfSnoc(INITIAL, before, heard[0]);
      }
    }
  }

  /** The first words of a connection: in every reachable lane a valid STARTED of the current connection
      at its select connects a lifecycle that is preparing, connected or degraded. */
  lemma StartedConnects(id: SessionId, es: seq<Event>, h: nat, wake: bool, now: nat)
    ensures var s := Run(Start(id), es);
            AtSelect(s, h) && Current(s, h) && s.lifecycle.session == Some(id)
            && s.lifecycle.state in {Preparing, Connected, Degraded} ==>
              var t := Step(s, FrameIn(h, Started(true, wake), now)).lifecycle;
              t.state == Connected && t.lastHeartbeat == Some(now) && t.missed == 0 && t.reason == None
  {
    hide Run;
    LifecycleIsItsHistory(id, es);
    ReachableInv(id, es);
    var s := Run(Start(id), es);
    if AtSelect(s, h) && Current(s, h) { HeardIsApplied(s, FrameIn(h, Started(true, wake), now)); }
  }

  // ------------------------------------------------------------- the lane changes hands

  /** The active slot moves in exactly two ways: an admitted HELLO takes it for a new handler with the
      next epoch, and the owner's cleanup gives it up. */
  lemma ActiveSlotMoves(s: Lane, e: Event)
    ensures Step(s, e).active ==
            if e.Hello? && s.lifecycle.state != Stopping then Some(s.generation + 1)
            else if e.Cleanup? && e.h < |s.handlers| && s.handlers[e.h].phase == Leaving && Current(s, e.h) then None
            else s.active
  {
    hide Apply, Accepts;
  }

  ghost predicate CancelledAreOld(s: Lane) { forall k :: k in s.cancelled ==> k <= s.generation }

  lemma StepKeepsCancelledOld(s: Lane, e: Event)
    requires Inv(s) && CancelledAreOld(s)
    ensures CancelledAreOld(Step(s, e))
  {
    hide Apply, Accepts;
  }

  lemma {:induction false} ReachableCancelledAreOld(id: SessionId, es: seq<Event>)
    ensures Inv(Run(Start(id), es)) && CancelledAreOld(Run(Start(id), es))
  {
    hide Step, Inv;
    ReachableInv(id, es);
    if es != [] {
      ReachableInv(id, es[..|es| - 1]);
      ReachableCancelledAreOld(id, es[..|es| - 1]);
      StepKeepsCancelledOld(Run(Start(id), es[..|es| - 1]), es[|es| - 1]);
    }
  }

  /** In every reachable lane outside Stopping a HELLO is admitted: its connection becomes current, the
      one before it is told to leave, and once HELLO_ACK is written it stands at its select. */
  lemma HelloIsAdmitted(id: SessionId, es: seq<Event>)
    ensures var s := Run(Start(id), es);
            s.lifecycle.state != Stopping ==>
              var t, h := Step(s, Hello), |s.handlers|;
              var u := Step(t, ReplyWritten(h, true));
              && |t.handlers| == h + 1 && Current(t, h) && t.handlers[..h] == s.handlers
              && (s.active.Some? ==> s.active.value in t.cancelled)
              && |u.handlers| == h + 1 && u.handlers[h] == Handler(h + 1, Selecting, None, false) && Current(u, h)
  {
    hide Run, Apply, Accepts;
    ReachableCancelledAreOld(id, es);
  }

  /** A submitted stop waits at the end of the lane while there is room on it. */
  lemma SubmitQueues(s: Lane)
    ensures Step(s, Submit) ==
            if |s.queue| < 4 then s.(queue := s.queue + [s.submitted], submitted := s.submitted + 1) else s
  {
  }

  // ----------------------------------------------------------- a stop is carried through

  /** The whole stop transaction of a connection: it takes the oldest stop, the lifecycle goes to
      Stopping, STOP is written, STOPPED comes, the stop is answered Ok and the lifecycle is Stopped. */
  lemma StopIsCarriedThrough(s: Lane, h: nat, now: nat)
    requires Inv(s) && AtSelect(s, h) && Current(s, h) && s.handlers[h].pending == None
    requires s.handlers[h].epoch !in s.cancelled && s.queue != []
    requires s.lifecycle.state in {Preparing, Connected, Degraded, Error}
    ensures var c := s.queue[0];
            var s1 := Step(s, TakeCommand(h));
            var s2 := Step(s1, Decide(h, false));
            var s3 := Step(s2, StopWritten(h, true));
            var s4 := Step(s3, FrameIn(h, StoppedFrame, now));
            && s1.queue == s.queue[1..] && s2.lifecycle.state == Stopping && s2.handlers[h].pending == Some(c)
            && s4.lifecycle == INITIAL && s4.answers == s.answers + [Answer(c, true)]
            && AtSelect(s4, h) && s4.handlers[h].pending == None
  {
    hide OnCleanup;
    var x := s.handlers[h];
    var s1 := Step(s, TakeCommand(h));
    assert s1.handlers[h] == x.(phase := Holding(s.queue[0])) && s1.lifecycle == s.lifecycle && s1.answers == s.answers;
    var s2 := Step(s1, Decide(h, false));
    assert s2.handlers[h].phase == WritingStop && s2.handlers[h].pending == Some(s.queue[0]) && s2.answers == s.answers;
    var s3 := Step(s2, StopWritten(h, true));
    assert s3.handlers[h].phase == Selecting && s3.handlers[h].pending == Some(s.queue[0]) && s3.answers == s.answers;
  }

  /** A second stop, an expired one, or one the lifecycle cannot take is answered with an error at
      once, and the lifecycle does not move. */
  lemma OtherStopsAreRefused(s: Lane, h: nat, expired: bool)
    requires h < |s.handlers| && s.handlers[h].phase.Holding?
    requires expired || s.handlers[h].pending.Some? || (Current(s, h) && s.lifecycle.state in {Stopped, Stopping})
    ensures var t := Step(s, Decide(h, expired));
            && t.answers == s.answers + [Answer(s.handlers[h].phase.cmd, false)] && t.lifecycle == s.lifecycle
            && t.handlers[h].pending == s.handlers[h].pending
            && t.handlers[h].phase == if s.handlers[h].epoch in s.cancelled then Leaving else Selecting
  {
  }

  /** A stop that times out, and one whose connection is lost, is answered with an error and fails the
      lifecycle. */
  lemma UnacknowledgedStopFails(s: Lane, h: nat)
    requires Inv(s) && h < |s.handlers| && s.handlers[h].pending.Some?
    ensures var c := s.handlers[h].pending.value;
            && (s.handlers[h].phase == Selecting ==>
                  var t := Step(s, StopDeadline(h));
                  && t.answers == s.answers + [Answer(c, false)] && t.handlers[h].pending == None
                  && Step(t, FailAfterDeadline(h)).lifecycle.state == Error)
            && (s.handlers[h].phase == Leaving && Current(s, h) ==>
                  var t := Step(s, Cleanup(h));
                  t.answers == s.answers + [Answer(c, false)] && t.lifecycle.state == Error && t.active == None
                  && t.handlers[h].phase == Gone)
  {
  }

  /** A superseded connection puts the stop it took back at the end of the lane, and leaves. */
  lemma SupersededPutsItBack(s: Lane, h: nat)
    requires h < |s.handlers| && s.handlers[h].phase.Holding? && s.handlers[h].pending == None && !Current(s, h)
    requires |s.queue| < 4
    ensures var t := Step(Step(s, Decide(h, false)), Requeue(h, Requeued));
            t.queue == s.queue + [s.handlers[h].phase.cmd] && t.handlers[h].phase == Leaving && t.answers == s.answers
  {
    var s1 := Step(s, Decide(h, false));
    assert s1.handlers[h].phase == Requeueing(s.handlers[h].phase.cmd) && s1.queue == s.queue && s1.answers == s.answers;
  }

  /** A transport reset ends the current connection: told to leave at its select, it goes, runs its
      cleanup, frees the lane, and the lifecycle has lost its transport. */
  lemma ResetEndsTheConnection(s: Lane, h: nat)
    requires Inv(s) && AtSelect(s, h) && Current(s, h) && s.handlers[h].pending == None
    ensures var t := Step(Step(Step(s, ResetTransport), SeeCancel(h)), Cleanup(h));
            && t.active == None && t.handlers[h].phase == Gone && t.answers == s.answers
            && t.lifecycle == Apply(s.lifecycle, TransportLost(TRANSPORT_LOST_REASON))
  {
    hide Apply, Accepts, OnFrame, OnDecide;
    var s1 := Step(s, ResetTransport);
    assert s1.handlers == s.handlers && s.handlers[h].epoch in s1.cancelled && s1.active == s.active;
    var s2 := Step(s1, SeeCancel(h));
    assert s2.handlers[h] == s.handlers[h].(phase := Leaving) && s2.active == s.active && s2.lifecycle == s.lifecycle;
  }

  /** Who must leave its select: a cancelled connection, one that is no longer current when it hears a
      tick or a frame, and one whose peer closed or broke the protocol. */
  lemma LeavesTheSelect(s: Lane, h: nat, f: Incoming, now: nat)
    requires AtSelect(s, h)
    ensures s.handlers[h].epoch in s.cancelled ==> Step(s, SeeCancel(h)).handlers[h].phase == Leaving
    ensures !Current(s, h) ==> Step(s, HeartbeatTick(h, now)).handlers[h].phase == Leaving
    ensures !Current(s, h) && !f.StaleSession? ==> Step(s, FrameIn(h, f, now)).handlers[h].phase == Leaving
    ensures f.Closed? || f.Unexpected? || ((f.Started? || f.Beat? || f.SuspendFrame?) && !f.valid) ==>
              Step(s, FrameIn(h, f, now)).handlers[h].phase == Leaving
    ensures f.StoppedFrame? && s.handlers[h].pending == None ==> Step(s, FrameIn(h, f, now)).handlers[h].phase == Leaving
  {
  }

  /** A frame of another session, and a frame the lifecycle refuses (a heartbeat or a suspension while
      still preparing, anything from STARTED on once stopped or failed), end the handler on the spot: its
      stop is answered with an error, and neither the lifecycle nor the active slot is cleaned up. */
  lemma RefusedFrameEndsTheHandler(s: Lane, h: nat, f: Incoming, now: nat)
    requires AtSelect(s, h)
    requires || f == StaleSession
             || (Current(s, h) && s.lifecycle.state == Preparing && f in {Beat(true), SuspendFrame(true)})
             || (Current(s, h) && s.lifecycle.state in {Stopped, Error}
                 && f in {Started(true, true), Started(true, false), Beat(true), SuspendFrame(true)})
    ensures var t := Step(s, FrameIn(h, f, now));
            && t.handlers[h].phase == Gone && t.lifecycle == s.lifecycle && t.active == s.active
            && t.answers == if s.handlers[h].pending.Some? then s.answers + [Answer(s.handlers[h].pending.value, false)]
                            else s.answers
  {
  }

  /** Who answers: a wake, a heartbeat, a suspension and a status request of the current connection put
      it to writing; the other accepted frames leave it at its select unless it was told to leave. */
  lemma AnswersTheFrame(s: Lane, h: nat, f: Incoming, now: nat)
    requires AtSelect(s, h) && Current(s, h) && s.lifecycle.state in {Connected, Degraded} && s.lifecycle.session == Some(s.session)
    ensures var t := Step(s, FrameIn(h, f, now)).handlers[h].phase;
            && (f == Started(true, true) || f == Beat(true) || f == SuspendFrame(true) || f == StatusFrame ==> t == Replying)
            && (f == Started(true, false) || f == ErrorFrame || f == MetricsFrame ==>
                  t == if s.handlers[h].epoch in s.cancelled then Leaving else Selecting)
  {
  }
}
